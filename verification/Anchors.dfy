/**
 * When the test for reaching below a directory can miss what an exception matches. The translation takes an unescaped
 * `^` as the start of the path, the test as a character; so the question is which paths an anchored expression accepts.
 */
module Anchors {
  import opened Glob
  import opened Paths

  /** What is left of a path text can be read as names, with a separator somewhere in all of it. */
  predicate Fits(path: string, pos: nat, atStart: bool, crossed: bool)
    requires pos <= |path|
    decreases |path| - pos
  {
    if pos == |path| then !atStart && crossed
    else if path[pos] == '/' then !atStart && Fits(path, pos + 1, true, true)
    else Fits(path, pos + 1, false, crossed)
  }

  predicate HasSeparator(path: string, pos: nat) {
    exists i :: pos <= i < |path| && path[i] == '/'
  }

  predicate NoEmptyNameFrom(path: string, pos: nat) {
    forall i :: pos <= i < |path| ==> !IsEmptyNameAt(path, i)
  }

  lemma {:induction false} FitsExactly(path: string, pos: nat, atStart: bool, crossed: bool)
    requires pos <= |path|
    ensures Fits(path, pos, atStart, crossed) <==>
              && (if pos == |path| then !atStart else path[|path| - 1] != '/' && (atStart ==> path[pos] != '/'))
              && NoEmptyNameFrom(path, pos) && (crossed || HasSeparator(path, pos))
    decreases |path| - pos
  {
    if pos < |path| {
      FitsExactly(path, pos + 1, path[pos] == '/', crossed || path[pos] == '/');
      assert HasSeparator(path, pos) <==> path[pos] == '/' || HasSeparator(path, pos + 1);
      assert NoEmptyNameFrom(path, pos) <==>
             NoEmptyNameFrom(path, pos + 1) && !IsEmptyNameAt(path, pos);
    }
  }

  lemma FitsIsPath(path: string)
    ensures Fits(path, 0, true, false) <==> IsPath(path) && '/' in path
  {
    FitsExactly(path, 0, true, false);
    assert NoEmptyNameFrom(path, 0) <==> NoEmptyName(path);
  }

  /** The same, further on. */
  lemma {:induction false} FitsAfter(path: string, pos: nat, k: nat, atStart: bool, crossed: bool)
    requires pos < k <= |path| && Fits(path, pos, atStart, crossed)
    ensures Fits(path, k, path[k - 1] == '/', crossed || !Lacks(path, '/', pos, k))
    decreases k - pos
  {
    if pos + 1 < k {
      FitsAfter(path, pos + 1, k, path[pos] == '/', crossed || path[pos] == '/');
      assert Lacks(path, '/', pos, k) <==> path[pos] != '/' && Lacks(path, '/', pos + 1, k);
    }
  }

  /** Some path of names with a separator in it can be completed by what these tokens accept. */
  predicate CanName(tokens: seq<Token>, atStart: bool, crossed: bool) {
    if tokens == [] then
      !atStart && crossed
    else
      var rest := tokens[1..];
      match tokens[0]
      case Literal(c) =>
        if c == '/' then !atStart && CanName(rest, true, true) else CanName(rest, false, crossed)
      case OneInName => CanName(rest, false, crossed)
      case AnyInName => CanName(rest, false, crossed)
      case AnyTail => CanName(rest, false, true)
      case AnyDirectories => CanName(rest, true, true) || CanName(rest, atStart, crossed)
      case StartOfText => false
      case Remainder(_) => true
  }

  /** It is easier inside a name than at its start, and with a separator behind than without. */
  lemma {:induction false} CanNameGrows(tokens: seq<Token>, atStart: bool, crossed: bool, start': bool, crossed': bool)
    requires CanName(tokens, atStart, crossed) && (start' ==> atStart) && (crossed ==> crossed')
    ensures CanName(tokens, start', crossed')
  {
    if tokens != [] {
      var rest := tokens[1..];
      match tokens[0] {
        case Literal(c) =>
          if c != '/' {
            CanNameGrows(rest, false, crossed, false, crossed');
          }
        case OneInName => CanNameGrows(rest, false, crossed, false, crossed');
        case AnyInName => CanNameGrows(rest, false, crossed, false, crossed');
        case AnyDirectories =>
          if !CanName(rest, true, true) {
            CanNameGrows(rest, atStart, crossed, start', crossed');
          }
        case _ =>
      }
    }
  }

  predicate HasNoAnchor(tokens: seq<Token>) {
    forall i :: 0 <= i < |tokens| ==> tokens[i] != StartOfText
  }

  /** Tokens that accept a path of names with a separator can do so. */
  lemma {:induction false} AcceptedCanName(tokens: seq<Token>, path: string, pos: nat, atStart: bool, crossed: bool,
                                           engine: Engine)
    requires pos <= |path| && HasNoAnchor(tokens) && Accepts(tokens, path, pos, engine)
    requires Fits(path, pos, atStart, crossed)
    ensures CanName(tokens, atStart, crossed)
    decreases |tokens|
  {
    if tokens != [] && !tokens[0].Remainder? {
      var rest := tokens[1..];
      var next := NextPosition(tokens, path, pos, engine);
      if next == pos {
        AcceptedCanName(rest, path, next, atStart, crossed, engine);
        CanNameGrows(rest, atStart, crossed, false, crossed);
        CanNameGrows(rest, atStart, crossed, false, true);
      } else {
        var start', crossed' := path[next - 1] == '/', crossed || !Lacks(path, '/', pos, next);
        FitsAfter(path, pos, next, atStart, crossed);
        AcceptedCanName(rest, path, next, start', crossed', engine);
        CanNameGrows(rest, start', crossed', false, true);
        CanNameGrows(rest, start', crossed', start', true);
      }
    }
  }

  /** Where the first token stops. */
  lemma NextPosition(tokens: seq<Token>, path: string, pos: nat, engine: Engine) returns (next: nat)
    requires pos <= |path| && tokens != [] && !tokens[0].Remainder? && Accepts(tokens, path, pos, engine)
    ensures pos <= next <= |path| && Accepts(tokens[1..], path, next, engine)
    ensures match tokens[0]
            case Literal(c) => next == pos + 1 && path[pos] == c
            case OneInName => next == pos + 1 && path[pos] != '/'
            case AnyInName => Lacks(path, '/', pos, next)
            case AnyDirectories => next > pos ==> path[next - 1] == '/'
            case StartOfText => next == pos == 0
            case _ => true
  {
    next :| pos <= next <= |path| && Accepts(tokens[1..], path, next, engine)
            && match tokens[0]
               case Literal(c) => next == pos + 1 && path[pos] == c
               case OneInName => next == pos + 1 && path[pos] != '/'
               case AnyInName => Lacks(path, '/', pos, next)
               case AnyDirectories => next > pos ==> path[next - 1] == '/'
               case StartOfText => next == pos == 0
               case _ => true;
  }

  // A path for tokens that can name one.

  /** What the first token accepts, with a separator if one is possible, and where that leads. */
  datatype Piece = Piece(text: string, atStart: bool, crossed: bool)

  function FirstPiece(tokens: seq<Token>, atStart: bool, crossed: bool): Piece
    requires tokens != []
  {
    match tokens[0]
    case Literal(c) => Piece([c], c == '/', crossed || c == '/')
    case AnyTail => Piece("x/x", false, true)
    case AnyDirectories =>
      if CanName(tokens[1..], true, true) then Piece("x/", true, true) else Piece("", atStart, crossed)
    case Remainder(_) => Piece("x/x", false, true)
    case _ => Piece("x", false, crossed)
  }

  /** A text these tokens accept, which completes a path of names with a separator. */
  function Sample(tokens: seq<Token>, atStart: bool, crossed: bool): string
    requires CanName(tokens, atStart, crossed)
  {
    if tokens == [] then
      ""
    else
      var piece := FirstPiece(tokens, atStart, crossed);
      piece.text + if tokens[0].Remainder? then "" else Sample(tokens[1..], piece.atStart, piece.crossed)
  }

  ghost predicate AcceptsAnything(engine: Engine) {
    forall text, path, pos :: engine(text, path, pos)
  }

  /** A remainder is accepted, if there is one. */
  ghost predicate IsSampled(tokens: seq<Token>, engine: Engine) {
    forall i :: 0 <= i < |tokens| && tokens[i].Remainder? ==> AcceptsAnything(engine)
  }

  predicate StandsAt(path: string, pos: nat, next: nat, text: string) {
    next == pos + |text| <= |path| && forall i :: pos <= i < next ==> path[i] == text[i - pos]
  }

  lemma PieceIsAccepted(tokens: seq<Token>, path: string, pos: nat, next: nat, atStart: bool, crossed: bool,
                        engine: Engine)
    requires tokens != [] && CanName(tokens, atStart, crossed) && !tokens[0].Remainder?
    requires StandsAt(path, pos, next, FirstPiece(tokens, atStart, crossed).text)
    requires Accepts(tokens[1..], path, next, engine)
    ensures Accepts(tokens, path, pos, engine)
  {
    if tokens[0].AnyTail? {
      assert Lacks(path, '\n', pos, next);
    } else if tokens[0].AnyDirectories? && pos < next {
      assert path[next - 1] == path[pos + 1] == '/' && Lacks(path, '\n', pos, next - 1);
    }
  }

  /** The sample is accepted. */
  lemma {:induction false} SampleIsAccepted(tokens: seq<Token>, path: string, pos: nat, atStart: bool, crossed: bool,
                                            engine: Engine)
    requires CanName(tokens, atStart, crossed) && IsSampled(tokens, engine)
    requires pos <= |path| && path[pos..] == Sample(tokens, atStart, crossed)
    ensures Accepts(tokens, path, pos, engine)
    decreases |tokens|
  {
    if tokens != [] && !tokens[0].Remainder? {
      var piece := FirstPiece(tokens, atStart, crossed);
      var next := pos + |piece.text|;
      SampleGoesOn(path, pos, piece.text, Sample(tokens[1..], piece.atStart, piece.crossed));
      SampleIsAccepted(tokens[1..], path, next, piece.atStart, piece.crossed, engine);
      PieceIsAccepted(tokens, path, pos, next, atStart, crossed, engine);
    }
  }

  lemma PieceFits(tokens: seq<Token>, path: string, pos: nat, next: nat, atStart: bool, crossed: bool)
    requires tokens != [] && CanName(tokens, atStart, crossed)
    requires StandsAt(path, pos, next, FirstPiece(tokens, atStart, crossed).text)
    requires var piece := FirstPiece(tokens, atStart, crossed); Fits(path, next, piece.atStart, piece.crossed)
    ensures Fits(path, pos, atStart, crossed)
  {
    if next == pos + 3 {
      assert Fits(path, pos + 2, true, true);
    }
  }

  /** And it completes a path of names with a separator. */
  lemma {:induction false} SampleFits(tokens: seq<Token>, path: string, pos: nat, atStart: bool, crossed: bool)
    requires CanName(tokens, atStart, crossed)
    requires pos <= |path| && path[pos..] == Sample(tokens, atStart, crossed)
    ensures Fits(path, pos, atStart, crossed)
    decreases |tokens|
  {
    if tokens != [] {
      var piece := FirstPiece(tokens, atStart, crossed);
      var next := pos + |piece.text|;
      if tokens[0].Remainder? {
        SampleGoesOn(path, pos, piece.text, "");
      } else {
        SampleGoesOn(path, pos, piece.text, Sample(tokens[1..], piece.atStart, piece.crossed));
        SampleFits(tokens[1..], path, next, piece.atStart, piece.crossed);
      }
      PieceFits(tokens, path, pos, next, atStart, crossed);
    }
  }

  lemma SampleGoesOn(path: string, pos: nat, first: string, rest: string)
    requires pos <= |path| && path[pos..] == first + rest
    ensures StandsAt(path, pos, pos + |first|, first) && path[pos + |first|..] == rest
  {
    assert forall i :: pos <= i < pos + |first| ==> path[i] == path[pos..][i - pos];
  }

  /** How many escaped carets these tokens start with. */
  function LeadingCarets(tokens: seq<Token>): (n: nat)
    ensures n <= |tokens|
  {
    if tokens != [] && tokens[0] == Literal('^') then 1 + LeadingCarets(tokens[1..]) else 0
  }

  predicate StartsWithCarets(path: string, n: nat) {
    n <= |path| && forall i :: 0 <= i < n ==> path[i] == '^'
  }

  lemma {:induction false} CaretsAreAccepted(tokens: seq<Token>, path: string, pos: nat, engine: Engine)
    requires pos <= |path| && Accepts(tokens, path, pos, engine)
    ensures StartsWithCarets(path[pos..], LeadingCarets(tokens))
  {
    if tokens != [] && tokens[0] == Literal('^') {
      CaretsAreAccepted(tokens[1..], path, pos + 1, engine);
      assert path[pos..] == [path[pos]] + path[pos + 1..];
    }
  }

  /** Where doubled stars have to be left out, a separator follows or nothing. */
  lemma {:induction false} LeftOutBeforeASeparator(tokens: seq<Token>, crossed: bool)
    requires CanName(tokens, false, crossed) && !CanName(tokens, true, true)
    ensures Sample(tokens, false, crossed) == "" || Sample(tokens, false, crossed)[0] == '/'
  {
    if tokens != [] {
      var rest := tokens[1..];
      match tokens[0] {
        case Literal(c) =>
          if c != '/' {
            CanNameGrows(rest, false, crossed, false, true);
          }
        case OneInName => CanNameGrows(rest, false, crossed, false, true);
        case AnyInName => CanNameGrows(rest, false, crossed, false, true);
        case AnyDirectories => LeftOutBeforeASeparator(rest, crossed);
        case _ =>
      }
    }
  }

  /** Behind the carets they have to start with, samples go on with something else. */
  lemma {:induction false} SampleBehindCarets(tokens: seq<Token>, atStart: bool, crossed: bool)
    requires CanName(tokens, atStart, crossed)
    ensures var n, sample := LeadingCarets(tokens), Sample(tokens, atStart, crossed);
            StartsWithCarets(sample, n) && (n < |sample| ==> sample[n] != '^')
  {
    if tokens != [] {
      var rest := tokens[1..];
      if tokens[0] == Literal('^') {
        SampleBehindCarets(rest, false, crossed);
      } else if tokens[0].AnyDirectories? && !CanName(rest, true, true) {
        CanNameGrows(rest, atStart, crossed, false, crossed);
        if atStart {
          CanNameGrows(rest, atStart, crossed, true, true);
          assert false;
        }
        LeftOutBeforeASeparator(rest, crossed);
      }
    }
  }

  // The test, and when it misses a match.

  /** The expression accepts a path of names with a separator, as far as its tokens tell. */
  predicate CanCross(tokens: seq<Token>) {
    && (forall i :: 0 <= i < LastAnchor(tokens) ==> CanBeEmpty(tokens[i]))
    && CanName(tokens[LastAnchor(tokens)..], true, false)
  }

  /** Every path the expression accepts starts with the text up to its first wildcard, which is all carets. */
  predicate HasCaretsInFront(text: string) {
    var tokens := Translate(text, 0);
    LeadingCarets(tokens[LastAnchor(tokens)..]) >= FirstWildcard(text)
  }

  /** The test for reaching below a directory cannot miss a match of this exception. */
  predicate IsReliable(text: string) {
    !StartsWithCaret(text) || !CanCross(Translate(text, 0)) || HasCaretsInFront(text)
  }

  /** Up to the first wildcard there is one token for each character: an anchor for a caret. */
  lemma {:induction false} TokenOfCharacter(text: string, i: nat, j: nat)
    requires i <= j < FirstWildcard(text)
    ensures j - i < |Translate(text, i)|
    ensures Translate(text, i)[j - i] == if text[j] == '^' then StartOfText else Literal(text[j])
    decreases j - i
  {
    assert text[i] !in WILDCARDS;
    if i < j {
      TokenOfCharacter(text, i + 1, j);
      assert Translate(text, i)[1..] == Translate(text, i + 1);
    }
  }

  /** Escaped carets behind the last anchor are there only if all that precedes the first wildcard are anchors. */
  lemma CaretsComeBehindAnchors(text: string)
    requires StartsWithCaret(text) && CanCross(Translate(text, 0))
    requires LeadingCarets(Translate(text, 0)[LastAnchor(Translate(text, 0))..]) > 0
    ensures FirstWildcard(text) < |text| && StartsWithCarets(text, FirstWildcard(text))
  {
    var tokens, n := Translate(text, 0), FirstWildcard(text);
    var last := LastAnchor(tokens);
    assert tokens[last..][0] == tokens[last] == Literal('^');
    forall i | 0 <= i < n
      ensures text[i] == '^'
    {
      TokenOfCharacter(text, 0, i);
      if last < n {
        TokenOfCharacter(text, 0, last);
        assert false;
      }
      assert CanBeEmpty(tokens[i]);
    }
    if n == |text| {
      AllTokensOfCharacters(text);
      assert false;
    }
  }

  lemma AllTokensOfCharacters(text: string)
    requires FirstWildcard(text) == |text|
    ensures Literal('^') !in Translate(text, 0)
  {
    OneTokenPerCharacter(text, 0, 0);
    forall j | 0 <= j < |text|
      ensures Translate(text, 0)[j] != Literal('^')
    {
      TokenOfCharacter(text, 0, j);
    }
  }

  /** The test rules a directory out if it differs from the text before the first wildcard. */
  lemma DifferentDirectory(text: string, directory: string, j: nat)
    requires j < FirstWildcard(text) && j <= |directory| && (directory + "/")[j] != text[j]
    ensures !MayReachBelow(text, directory)
  {
    var prefix, n := directory + "/", FirstWildcard(text);
    assert (text + "/")[j] == text[j] && text[..n][j] == text[j];
  }

  /** Whatever this pattern text matches below a directory, the test lets it through. */
  ghost predicate IsNeverMissed(text: string, engine: Engine) {
    forall directory, path :: IsPath(path) && HasPrefix(path, directory + "/") && Matches(text, path, engine) ==>
                                MayReachBelow(text, directory)
  }

  lemma ReliableIsNeverMissed(text: string, engine: Engine)
    requires IsReliable(text)
    ensures IsNeverMissed(text, engine)
  {
    forall directory, path | IsPath(path) && HasPrefix(path, directory + "/") && Matches(text, path, engine)
      ensures MayReachBelow(text, directory)
    {
      if StartsWithCaret(text) {
        AnchoredReachesOnlyWhatMayReach(text, directory, path, engine);
      } else {
        UnanchoredReachesOnlyWhatMayReach(text, directory, path, engine);
      }
    }
  }

  lemma AnchoredReachesOnlyWhatMayReach(text: string, directory: string, path: string, engine: Engine)
    requires IsPath(path) && HasPrefix(path, directory + "/") && Matches(text, path, engine)
    requires StartsWithCaret(text) && IsReliable(text)
    ensures MayReachBelow(text, directory)
  {
    var tokens, n, prefix := Translate(text, 0), FirstWildcard(text), directory + "/";
    var last := LastAnchor(tokens);
    RemainderIsLast(text, 0);
    assert tokens[0] == StartOfText && last > 0;
    AnchorHoldsBack(tokens, path, 0, engine);
    assert path[|directory|] == prefix[|directory|] == '/';
    FitsIsPath(path);
    AcceptedCanName(tokens[last..], path, 0, true, false, engine);
    CaretsAreAccepted(tokens[last..], path, 0, engine);
    assert path[0..] == path && n > 0;
    CaretsComeBehindAnchors(text);
    if |prefix| < n {
      assert false;
    }
    assert forall i :: 0 <= i < n ==> prefix[i] == path[i] == '^' == text[..n][i];
    assert text[..n] <= prefix;
  }

  /** A text that is not reliable matches some path below a directory that the test rules out. */
  lemma MissedMatch(text: string, engine: Engine) returns (directory: string, path: string)
    requires !IsReliable(text) && IsSampled(Translate(text, 0), engine)
    ensures IsPath(path) && HasPrefix(path, directory + "/")
    ensures Matches(text, path, engine) && !MayReachBelow(text, directory)
  {
    var tokens := Translate(text, 0);
    var last := LastAnchor(tokens);
    var rest := tokens[last..];
    path := Sample(rest, true, false);
    RestIsSampled(tokens, last, engine);
    assert path[0..] == path;
    SampleIsAccepted(rest, path, 0, true, false, engine);
    SampleFits(rest, path, 0, true, false);
    EmptyTokensAreSkipped(tokens, last, path, engine);
    FitsIsPath(path);
    directory := FirstDirectory(path);
    SampleBehindCarets(rest, true, false);
    DirectoryDiffers(text, directory, path, LeadingCarets(rest));
  }

  lemma DirectoryDiffers(text: string, directory: string, path: string, carets: nat)
    requires StartsWithCaret(text) && CanCross(Translate(text, 0)) && carets < FirstWildcard(text)
    requires carets == LeadingCarets(Translate(text, 0)[LastAnchor(Translate(text, 0))..])
    requires HasPrefix(path, directory + "/") && StartsWithCarets(path, carets)
    requires carets < |path| ==> path[carets] != '^'
    ensures !MayReachBelow(text, directory)
  {
    assert path[|directory|] == (directory + "/")[|directory|] == '/';
    assert carets <= |directory|;
    assert (directory + "/")[carets] == path[carets];
    if carets > 0 {
      CaretsComeBehindAnchors(text);
    }
    DifferentDirectory(text, directory, carets);
  }

  lemma RestIsSampled(tokens: seq<Token>, n: nat, engine: Engine)
    requires n <= |tokens| && IsSampled(tokens, engine)
    ensures IsSampled(tokens[n..], engine)
  {
    assert forall i :: 0 <= i < |tokens[n..]| ==> tokens[n..][i] == tokens[n + i];
  }

  lemma {:induction false} FirstDirectory(path: string) returns (directory: string)
    requires '/' in path
    ensures HasPrefix(path, directory + "/") && '/' !in directory
  {
    if path[0] == '/' {
      directory := "";
    } else {
      directory := FirstDirectory(path[1..]);
      directory := [path[0]] + directory;
      assert path == [path[0]] + path[1..];
    }
  }

  predicate HasNoRemainder(tokens: seq<Token>) {
    forall token :: token in tokens ==> !token.Remainder?
  }

  /** The condition is exact, whatever the engine, for texts without brackets and escaped letters or digits. */
  lemma ReliableExactly(text: string, engine: Engine)
    requires HasNoRemainder(Translate(text, 0))
    ensures IsReliable(text) <==> IsNeverMissed(text, engine)
  {
    if IsReliable(text) {
      ReliableIsNeverMissed(text, engine);
    } else {
      RemainderIsLast(text, 0);
      var directory, path := MissedMatch(text, engine);
      assert IsPath(path) && HasPrefix(path, directory + "/");
    }
  }

  /** With those too, for all that they may stand for. */
  lemma ReliableWhateverTheEngine(text: string)
    ensures IsReliable(text) <==> forall engine: Engine :: IsNeverMissed(text, engine)
  {
    if IsReliable(text) {
      forall engine: Engine
        ensures IsNeverMissed(text, engine)
      {
        ReliableIsNeverMissed(text, engine);
      }
    } else {
      RemainderIsLast(text, 0);
      var engine: Engine := (text, path, pos) => true;
      var directory, path := MissedMatch(text, engine);
      assert IsPath(path) && HasPrefix(path, directory + "/");
      assert !IsNeverMissed(text, engine);
    }
  }

  // What a walk needs is less: an exception that matches a path may match the directories above it as well.

  /**
   * Whatever path the text matches below a directory, it matches the directory itself, or the test lets the directory
   * through.
   */
  ghost predicate IsPruningSafe(text: string, engine: Engine) {
    forall directory, path ::
      && IsPath(path) && HasPrefix(path, directory + "/")
      && Matches(text, path, engine) && !Matches(text, directory, engine) ==>
        MayReachBelow(text, directory)
  }

  lemma ReliableIsPruningSafe(text: string, engine: Engine)
    requires IsReliable(text)
    ensures IsPruningSafe(text, engine)
  {
    ReliableIsNeverMissed(text, engine);
  }

  /** That is less indeed: `^**` can be missed, but it matches every directory above what it matches. */
  lemma SafeButNotReliable(engine: Engine)
    ensures !IsReliable("^**") && IsPruningSafe("^**", engine)
  {
    var text, tokens := "^**", [StartOfText, AnyTail];
    assert Translate(text, 3) == [] && Translate(text, 1) == [AnyTail];
    assert Translate(text, 0) == tokens && tokens[1..] == [AnyTail] && [AnyTail][1..] == [];
    assert LastAnchor([AnyTail]) == 0 && LastAnchor(tokens) == 1;
    assert CanName([AnyTail], true, false);
    assert FirstWildcard(text[1..]) == 0 && FirstWildcard(text) == 1;
    forall directory, path | HasPrefix(path, directory + "/") && Matches(text, path, engine)
      ensures Matches(text, directory, engine)
    {
      AnyTailAccepts(path, engine);
      AnyTailAccepts(directory, engine);
      assert forall i :: 0 <= i < |directory| ==> path[i] == (directory + "/")[i] == directory[i];
    }
  }

  lemma AnyTailAccepts(path: string, engine: Engine)
    ensures Accepts([StartOfText, AnyTail], path, 0, engine) <==> Lacks(path, '\n', 0, |path|)
  {
    assert [StartOfText, AnyTail][1..] == [AnyTail] && [AnyTail][1..] == [];
    if Accepts([AnyTail], path, 0, engine) {
      var k :| 0 <= k <= |path| && Lacks(path, '\n', 0, k) && Accepts([AnyTail][1..], path, k, engine);
      assert k == |path|;
    }
    if Lacks(path, '\n', 0, |path|) {
      assert Accepts([AnyTail][1..], path, |path|, engine);
    }
  }

  /** A text that may match below a directory may match below the directories above. */
  lemma ReachesFromAbove(text: string, above: string, below: string)
    requires HasPrefix(below, above + "/") && MayReachBelow(text, below)
    ensures MayReachBelow(text, above)
  {
    var n := FirstWildcard(text);
    PrefixIsTransitive(above + "/", below, below + "/");
    if n == |text| {
      PrefixIsTransitive(above + "/", below + "/", text + "/");
    } else if HasPrefix(text[..n], below + "/") {
      PrefixIsTransitive(above + "/", below + "/", text[..n]);
    } else {
      PrefixesAreComparable(above + "/", text[..n], below + "/");
    }
  }

  lemma PrefixIsTransitive(a: string, b: string, c: string)
    requires HasPrefix(b, a) && (HasPrefix(c, b) || c == b + "/")
    ensures HasPrefix(c, a)
  {
    assert forall i :: 0 <= i < |a| ==> a[i] == b[i] == c[i];
  }

  lemma PrefixesAreComparable(a: string, b: string, c: string)
    requires HasPrefix(c, a) && HasPrefix(c, b)
    ensures HasPrefix(a, b) || HasPrefix(b, a)
  {
    assert a == c[..|a|] && b == c[..|b|];
    assert if |a| <= |b| then b[..|a|] == a else a[..|b|] == b;
  }
}
