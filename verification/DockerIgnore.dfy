/**
 * Ignore verdicts that carry each pattern's result from a directory to its children. A pattern that cannot
 * change the running verdict is skipped and recorded as "no", so the carried information is not simply
 * "did this pattern match".
 */
module DockerIgnore {
  import opened Anchors
  import opened Glob
  import opened Paths

  datatype IgnorePattern = IgnorePattern(text: string, exception: bool) {
    predicate Hits(path: string, engine: Engine) {
      Matches(text, path, engine)
    }
  }

  /** One flag per pattern; the empty sequence at the root. */
  type MatchInfo = seq<bool>

  datatype Verdict = Verdict(excluded: bool, info: MatchInfo)

  datatype Rules = Rules(patterns: seq<IgnorePattern>, engine: Engine) {

    predicate IsInfo(parent: MatchInfo) {
      parent == [] || |parent| == |patterns|
    }

    predicate Inherits(parent: MatchInfo, i: nat)
      requires IsInfo(parent) && i < |patterns|
    {
      parent != [] && parent[i]
    }

    /** The verdict and flags after the first `k` patterns, with the skip. */
    function After(relative: string, parent: MatchInfo, k: nat): (v: Verdict)
      requires IsInfo(parent) && k <= |patterns|
      ensures |v.info| == k
    {
      if k == 0 then Verdict(false, [])
      else
        var before := After(relative, parent, k - 1);
        var pattern := patterns[k - 1];
        if !Inherits(parent, k - 1) && pattern.exception != before.excluded then
          Verdict(before.excluded, before.info + [false])
        else
          var hit := Inherits(parent, k - 1) || pattern.Hits(relative, engine);
          Verdict(if hit then !pattern.exception else before.excluded, before.info + [hit])
    }

    /** The loop of `match`. */
    method Match(relative: string, parent: MatchInfo) returns (matched: bool, current: MatchInfo)
      requires IsInfo(parent)
      ensures Verdict(matched, current) == After(relative, parent, |patterns|)
    {
      current := [];
      matched := false;
      for index := 0 to |patterns|
        invariant Verdict(matched, current) == After(relative, parent, index)
      {
        var pattern := patterns[index];
        var hit := parent != [] && parent[index];
        if !hit {
          if pattern.exception != matched {
            current := current + [false];
            continue;
          }
          hit := pattern.Hits(relative, engine);
        }
        current := current + [hit];
        if hit {
          matched := !pattern.exception;
        }
      }
    }

    /** The unoptimised rule: evaluate every pattern, inherited hits included, and let the last hit decide. */
    function LastHitDecides(relative: string, parent: MatchInfo, k: nat): bool
      requires IsInfo(parent) && k <= |patterns|
    {
      if k == 0 then false
      else if Inherits(parent, k - 1) || patterns[k - 1].Hits(relative, engine) then !patterns[k - 1].exception
      else LastHitDecides(relative, parent, k - 1)
    }

    /** Skipping patterns never changes the verdict, whatever was inherited. */
    lemma {:induction false} SkippingKeepsTheVerdict(relative: string, parent: MatchInfo, k: nat)
      requires IsInfo(parent) && k <= |patterns|
      ensures After(relative, parent, k).excluded == LastHitDecides(relative, parent, k)
    {
      if k > 0 {
        SkippingKeepsTheVerdict(relative, parent, k - 1);
      }
    }

    /** The verdict for an entry, carried down through its ancestors from the root. */
    function Carried(parts: seq<string>): (v: Verdict)
      ensures IsInfo(v.info)
    {
      if parts == [] then Verdict(false, [])
      else After(Join(parts), Carried(parts[..|parts| - 1]).info, |patterns|)
    }

    /** The verdict for one path text on its own. */
    predicate Excluded(relative: string) {
      Carried(Split(relative)).excluded
    }

    /** `excludes`: replays the ancestors of a path text one by one. */
    method Excludes(relative: string) returns (excluded: bool)
      ensures excluded == Excluded(relative)
    {
      var parts := Split(relative);
      var info: MatchInfo := [];
      excluded := false;
      for end := 0 to |parts|
        invariant Verdict(excluded, info) == Carried(parts[..end])
      {
        assert parts[..end + 1][..end] == parts[..end];
        excluded, info := Match(Join(parts[..end + 1]), info);
      }
      assert parts[..|parts|] == parts;
    }

    predicate ReachesBelow(directory: string) {
      exists i :: 0 <= i < |patterns| && patterns[i].exception && MayReachBelow(patterns[i].text, directory)
    }

    /** `may_reinclude_below`. */
    method MayReincludeBelow(directory: string) returns (may: bool)
      ensures may == ReachesBelow(directory)
    {
      for index := 0 to |patterns|
        invariant forall i :: 0 <= i < index && patterns[i].exception ==> !MayReachBelow(patterns[i].text, directory)
      {
        if patterns[index].exception && MayReachBelow(patterns[index].text, directory) {
          return true;
        }
      }
      may := false;
    }

    /** For no exception can the test for reaching below a directory miss a match that counts. */
    ghost predicate IsPruningSafe() {
      forall i :: 0 <= i < |patterns| && patterns[i].exception ==> Anchors.IsPruningSafe(patterns[i].text, engine)
    }

    /** For no exception can that test miss any match; this can be read off the texts. */
    predicate IsReliable() {
      forall i :: 0 <= i < |patterns| && patterns[i].exception ==> Anchors.IsReliable(patterns[i].text)
    }

    lemma ReliableIsPruningSafe()
      requires IsReliable()
      ensures IsPruningSafe()
    {
      forall i | 0 <= i < |patterns| && patterns[i].exception
        ensures Anchors.IsPruningSafe(patterns[i].text, engine)
      {
        Anchors.ReliableIsPruningSafe(patterns[i].text, engine);
      }
    }

    /** Every exception that matches the child matches its parent, too. */
    predicate NoExceptionIsNew(relative: string, child: string) {
      forall i :: 0 <= i < |patterns| && patterns[i].exception && patterns[i].Hits(child, engine) ==>
                    patterns[i].Hits(relative, engine)
    }

    /** An exclusion is inherited by a child unless an exception matches the child and not its parent. */
    lemma {:induction false} ChildStaysExcluded(relative: string, parent: MatchInfo, child: string, k: nat)
      requires IsInfo(parent) && k <= |patterns|
      requires NoExceptionIsNew(relative, child)
      requires After(relative, parent, k).excluded
      ensures LastHitDecides(child, After(relative, parent, |patterns|).info, k)
    {
      InfoIsStable(relative, parent, k, |patterns|);
      if !After(relative, parent, k).info[k - 1] {
        ChildStaysExcluded(relative, parent, child, k - 1);
      }
    }

    lemma {:induction false} InfoIsStable(relative: string, parent: MatchInfo, k: nat, n: nat)
      requires IsInfo(parent) && k <= n <= |patterns|
      ensures After(relative, parent, n).info[..k] == After(relative, parent, k).info
      decreases n
    {
      if k < n {
        InfoIsStable(relative, parent, k, n - 1);
      }
    }

    /** Below an excluded directory that no exception may reach, everything is excluded. */
    lemma {:induction false} PrunedSubtreeIsExcluded(parts: seq<string>, k: nat)
      requires 0 < k <= |parts| && AreNames(parts) && IsPruningSafe()
      requires Carried(parts[..k]).excluded && !ReachesBelow(Join(parts[..k]))
      ensures Carried(parts).excluded
      decreases |parts|
    {
      if k == |parts| {
        assert parts[..k] == parts;
      } else {
        var above := parts[..|parts| - 1];
        assert above[..k] == parts[..k];
        PrunedSubtreeIsExcluded(above, k);
        NothingNewBelow(parts, k);
        AboveWasEvaluated(above, Join(parts));
        SkippingKeepsTheVerdict(Join(parts), Carried(above).info, |patterns|);
      }
    }

    lemma NothingNewBelow(parts: seq<string>, k: nat)
      requires 0 < k < |parts| && AreNames(parts) && IsPruningSafe() && !ReachesBelow(Join(parts[..k]))
      ensures NoExceptionIsNew(Join(parts[..|parts| - 1]), Join(parts))
    {
      var above := parts[..|parts| - 1];
      SplitJoin(parts);
      NamesMakeAPath(Join(parts));
      JoinBelow(parts, |parts| - 1);
      forall i | 0 <= i < |patterns| && patterns[i].exception && patterns[i].Hits(Join(parts), engine)
        ensures patterns[i].Hits(Join(above), engine)
      {
        assert Anchors.IsPruningSafe(patterns[i].text, engine);
        if MayReachBelow(patterns[i].text, Join(above)) {
          if k < |above| {
            assert above[..k] == parts[..k];
            JoinBelow(above, k);
            ReachesFromAbove(patterns[i].text, Join(parts[..k]), Join(above));
          }
          assert false;
        }
      }
    }

    lemma AboveWasEvaluated(above: seq<string>, child: string)
      requires above != [] && Carried(above).excluded && NoExceptionIsNew(Join(above), child)
      ensures LastHitDecides(child, Carried(above).info, |patterns|)
    {
      ChildStaysExcluded(Join(above), Carried(above[..|above| - 1]).info, child, |patterns|);
    }

    predicate SomePatternHits(relative: string) {
      exists i :: 0 <= i < |patterns| && patterns[i].Hits(relative, engine)
    }

    predicate SomeFlag(info: MatchInfo) {
      exists i :: 0 <= i < |info| && info[i]
    }

    /** Some pattern hits the path of all these names, or of the first of them. */
    predicate SomePrefixHits(parts: seq<string>) {
      exists k :: 0 < k <= |parts| && SomePatternHits(Join(parts[..k]))
    }

    lemma OneMorePrefix(parts: seq<string>)
      requires parts != []
      ensures SomePrefixHits(parts) <==> SomePrefixHits(parts[..|parts| - 1]) || SomePatternHits(Join(parts))
    {
      var above := parts[..|parts| - 1];
      assert parts[..|parts|] == parts;
      assert forall k :: 0 < k < |parts| ==> above[..k] == parts[..k];
    }

    /** Without exceptions the carried verdict is the simple one: some pattern matches the path or an ancestor. */
    lemma {:induction false} WithoutExceptions(parts: seq<string>)
      requires forall i :: 0 <= i < |patterns| ==> !patterns[i].exception
      ensures Carried(parts).excluded <==> SomePrefixHits(parts)
      ensures Carried(parts).excluded <==> SomeFlag(Carried(parts).info)
    {
      if parts != [] {
        var above := parts[..|parts| - 1];
        WithoutExceptions(above);
        FlagsDecide(Join(parts), Carried(above).info);
        OneMorePrefix(parts);
      }
    }

    lemma FlagsDecide(relative: string, parent: MatchInfo)
      requires IsInfo(parent)
      requires forall i :: 0 <= i < |patterns| ==> !patterns[i].exception
      ensures var v := After(relative, parent, |patterns|);
              && (v.excluded <==> SomeFlag(v.info))
              && (v.excluded <==> SomeFlag(parent) || SomePatternHits(relative))
    {
      FlagsDecideUpTo(relative, parent, |patterns|);
      if i :| 0 <= i < |parent| && parent[i] {
        assert Inherits(parent, i);
      }
    }

    lemma {:induction false} FlagsDecideUpTo(relative: string, parent: MatchInfo, k: nat)
      requires IsInfo(parent) && k <= |patterns|
      requires forall i :: 0 <= i < |patterns| ==> !patterns[i].exception
      ensures var v := After(relative, parent, k);
              && (v.excluded <==> SomeFlag(v.info))
              && (v.excluded <==> exists i :: 0 <= i < k && (Inherits(parent, i) || patterns[i].Hits(relative, engine)))
    {
      if k > 0 {
        FlagsDecideUpTo(relative, parent, k - 1);
        var before, v := After(relative, parent, k - 1), After(relative, parent, k);
        assert v.info == before.info + [v.info[k - 1]];
        if i :| 0 <= i < |before.info| && before.info[i] {
          assert v.info[i];
        }
        if !before.excluded {
          assert v.info[k - 1] == v.excluded;
          assert forall i :: 0 <= i < k - 1 ==> v.info[i] == before.info[i];
        }
      }
    }
  }

  /** An exception skipped at the parent is not remembered, so it cannot rescue a child it does not match itself. */
  lemma SkippedExceptionIsForgotten(rules: Rules, parent: string, child: string)
    requires |rules.patterns| == 2 && !rules.patterns[0].exception && rules.patterns[1].exception
    requires !rules.patterns[0].Hits(parent, rules.engine) && rules.patterns[0].Hits(child, rules.engine)
    requires !rules.patterns[1].Hits(child, rules.engine)
    ensures rules.After(child, rules.After(parent, [], 2).info, 2).excluded
  {
    assert rules.After(parent, [], 1) == Verdict(false, [false]);
    var info := [false, false];
    assert rules.After(parent, [], 2) == Verdict(false, info);
    assert rules.After(child, info, 1) == Verdict(true, [true]);
  }

  /**
   * The carried verdict is not "the last pattern that matches the path or an ancestor": for the two
   * patterns `a/c` and `!a` that rule would keep `a/c`, because `!a` comes last and matches `a`.
   */
  lemma NotLastMatchOnAnyAncestor(rules: Rules)
    requires rules.patterns == [IgnorePattern("a/c", false), IgnorePattern("a", true)]
    ensures rules.Excluded("a/c")
    ensures rules.patterns[1].exception && rules.patterns[1].Hits("a", rules.engine)
  {
    var parent, child := "a", "a" + "/" + "c";
    assert child == "a/c";
    assert IsPlain(parent) && IsPlain(child);
    assert rules.patterns[0].text == child && rules.patterns[1].text == parent && parent != child;
    LiteralMatch(parent, parent, rules.engine);
    LiteralMatch(parent, child, rules.engine);
    LiteralMatch(child, parent, rules.engine);
    LiteralMatch(child, child, rules.engine);
    SkippedExceptionIsForgotten(rules, parent, child);
    CarriedTwice(rules, "a", "c");
  }

  lemma CarriedTwice(rules: Rules, parent: string, name: string)
    requires IsName(parent) && IsName(name)
    ensures rules.Excluded(parent + "/" + name)
         == rules.After(parent + "/" + name, rules.After(parent, [], |rules.patterns|).info, |rules.patterns|).excluded
  {
    var parts := [parent, name];
    assert parts[..1] == [parent] && [parent][..0] == [];
    assert Join(parts) == parent + "/" + name;
    SplitJoin(parts);
    assert rules.Carried([]) == Verdict(false, []);
    assert rules.Carried([parent]) == rules.After(Join([parent]), rules.Carried([]).info, |rules.patterns|);
    assert rules.Carried(parts) == rules.After(Join(parts), rules.Carried([parent]).info, |rules.patterns|);
  }

  /**
   * An exclusion that matches a directory and nothing above it, followed by one exception that matches a path below
   * that directory but not the directory.
   */
  predicate Rescues(rules: Rules, exclusion: string, text: string, parts: seq<string>, k: nat) {
    && 0 < k < |parts| && AreNames(parts)
    && rules.patterns == [IgnorePattern(exclusion, false), IgnorePattern(text, true)]
    && Matches(exclusion, Join(parts[..k]), rules.engine)
    && (forall j :: 0 < j < k ==> !Matches(exclusion, Join(parts[..j]), rules.engine))
    && Matches(text, Join(parts), rules.engine) && !Matches(text, Join(parts[..k]), rules.engine)
  }

  /** Two patterns, worked through: the exception is looked at only if it is inherited or something is excluded. */
  lemma ExclusionAndException(rules: Rules, exclusion: string, text: string, relative: string, parent: MatchInfo)
    requires rules.patterns == [IgnorePattern(exclusion, false), IgnorePattern(text, true)] && rules.IsInfo(parent)
    ensures var first := rules.Inherits(parent, 0) || Matches(exclusion, relative, rules.engine);
            var second := rules.Inherits(parent, 1) || (first && Matches(text, relative, rules.engine));
            rules.After(relative, parent, 2) == Verdict(first && !second, [first, second])
  {
    var first := rules.Inherits(parent, 0) || rules.patterns[0].Hits(relative, rules.engine);
    assert rules.After(relative, parent, 1) == Verdict(first, [first]);
  }

  lemma CarriedStep(rules: Rules, parts: seq<string>, j: nat)
    requires 0 < j <= |parts|
    ensures rules.Carried(parts[..j]) ==
            rules.After(Join(parts[..j]), rules.Carried(parts[..j - 1]).info, |rules.patterns|)
  {
    assert parts[..j][..j - 1] == parts[..j - 1];
  }

  /** Above the directory nothing is remembered; from there on the exclusion is. */
  lemma {:induction false} RescueIsCarried(rules: Rules, exclusion: string, text: string, parts: seq<string>, k: nat,
                                           j: nat)
    requires Rescues(rules, exclusion, text, parts, k) && j <= |parts|
    ensures var info := rules.Carried(parts[..j]).info;
            (rules.Inherits(info, 0) <==> j >= k) && (j <= k ==> !rules.Inherits(info, 1))
  {
    if j > 0 {
      RescueIsCarried(rules, exclusion, text, parts, k, j - 1);
      CarriedStep(rules, parts, j);
      ExclusionAndException(rules, exclusion, text, Join(parts[..j]), rules.Carried(parts[..j - 1]).info);
    }
  }

  /** The directory is excluded, and the path below it is not. */
  lemma RescueVerdicts(rules: Rules, exclusion: string, text: string, parts: seq<string>, k: nat)
    requires Rescues(rules, exclusion, text, parts, k)
    ensures rules.Carried(parts[..k]).excluded && !rules.Carried(parts).excluded
  {
    RescueIsCarried(rules, exclusion, text, parts, k, k - 1);
    CarriedStep(rules, parts, k);
    ExclusionAndException(rules, exclusion, text, Join(parts[..k]), rules.Carried(parts[..k - 1]).info);
    var last := |parts|;
    RescueIsCarried(rules, exclusion, text, parts, k, last - 1);
    CarriedStep(rules, parts, last);
    assert parts[..last] == parts;
    ExclusionAndException(rules, exclusion, text, Join(parts), rules.Carried(parts[..last - 1]).info);
  }

  // An exclusion for every depth.

  /** `*` for one name, `*` `/` `*` for two, and so on. */
  function Stars(k: nat): (text: string)
    requires k > 0
    ensures |text| == 2 * k - 1
  {
    seq(2 * k - 1, i => if i % 2 == 0 then '*' else '/')
  }

  function Separators(s: string): nat {
    multiset(s)['/']
  }

  lemma SeparatorsSkip(s: string, pos: nat, next: nat)
    requires pos <= next <= |s| && Lacks(s, '/', pos, next)
    ensures Separators(s[pos..]) == Separators(s[next..])
  {
    assert s[pos..] == s[pos..next] + s[next..];
    assert '/' !in s[pos..next];
  }

  lemma SeparatorsStep(s: string, pos: nat)
    requires pos < |s|
    ensures Separators(s[pos..]) == Separators(s[pos + 1..]) + if s[pos] == '/' then 1 else 0
  {
    assert s[pos..] == [s[pos]] + s[pos + 1..];
  }

  lemma {:induction false} NextSeparator(s: string, pos: nat) returns (next: nat)
    requires pos <= |s| && Separators(s[pos..]) > 0
    ensures pos <= next < |s| && Lacks(s, '/', pos, next) && s[next] == '/'
    decreases |s| - pos
  {
    assert '/' in s[pos..];
    if s[pos] == '/' {
      next := pos;
    } else {
      SeparatorsStep(s, pos);
      next := NextSeparator(s, pos + 1);
    }
  }

  lemma StarsCharacters(k: nat, j: nat)
    requires j < k
    ensures Stars(k)[2 * j] == '*' && (j < k - 1 ==> Stars(k)[2 * j + 1] == '/')
  {
    assert (2 * j) % 2 == 0 && (2 * j + 1) % 2 == 1;
  }

  /** A star at the end, or before a separator. */
  lemma StarTokens(text: string, i: nat)
    requires i < |text| && text[i] == '*' && (i + 1 < |text| ==> text[i + 1] == '/')
    ensures var tokens := Translate(text, i);
            && tokens != [] && tokens[0] == AnyInName
            && (i + 1 == |text| ==> tokens == [AnyInName])
            && (i + 1 < |text| ==> |tokens| > 1 && tokens[1] == Literal('/') && tokens[2..] == Translate(text, i + 2))
  {
    assert Translate(text, i) == [AnyInName] + Translate(text, i + 1);
    if i + 1 < |text| {
      assert Translate(text, i + 1) == [Literal('/')] + Translate(text, i + 2);
    }
  }

  /** Tokens for so many names with separators between them. */
  predicate AreStars(tokens: seq<Token>, names: nat) {
    if names == 1 then tokens == [AnyInName]
    else
      && names > 1 && |tokens| > 1 && tokens[0] == AnyInName && tokens[1] == Literal('/')
      && AreStars(tokens[2..], names - 1)
  }

  lemma {:induction false} StarsTokens(k: nat, j: nat)
    requires j < k
    ensures AreStars(Translate(Stars(k), 2 * j), k - j)
    decreases k - j
  {
    StarsCharacters(k, j);
    StarTokens(Stars(k), 2 * j);
    if j < k - 1 {
      StarsTokens(k, j + 1);
      assert 2 * j + 2 == 2 * (j + 1);
    }
  }

  /** Each star but the last takes the path to its next separator. */
  lemma {:induction false} StarsCount(tokens: seq<Token>, names: nat, path: string, pos: nat, engine: Engine)
    requires AreStars(tokens, names) && pos <= |path| && Accepts(tokens, path, pos, engine)
    ensures Separators(path[pos..]) == names - 1
  {
    var next := NextPosition(tokens, path, pos, engine);
    SeparatorsSkip(path, pos, next);
    if names > 1 {
      var behind := NextPosition(tokens[1..], path, next, engine);
      assert tokens[1..][1..] == tokens[2..];
      StarsCount(tokens[2..], names - 1, path, behind, engine);
      SeparatorsStep(path, next);
    }
  }

  lemma AcceptsName(tokens: seq<Token>, path: string, pos: nat, next: nat, engine: Engine)
    requires tokens != [] && tokens[0] == AnyInName && pos <= next <= |path| && Lacks(path, '/', pos, next)
    requires Accepts(tokens[1..], path, next, engine)
    ensures Accepts(tokens, path, pos, engine)
  {}

  lemma AcceptsNameAndSeparator(tokens: seq<Token>, path: string, pos: nat, next: nat, engine: Engine)
    requires |tokens| > 1 && tokens[0] == AnyInName && tokens[1] == Literal('/')
    requires pos <= next < |path| && Lacks(path, '/', pos, next) && path[next] == '/'
    requires Accepts(tokens[2..], path, next + 1, engine)
    ensures Accepts(tokens, path, pos, engine)
  {
    assert tokens[1..][1..] == tokens[2..];
    AcceptsName(tokens, path, pos, next, engine);
  }

  lemma NextName(s: string, pos: nat) returns (next: nat)
    requires pos <= |s| && Separators(s[pos..]) > 0
    ensures pos <= next < |s| && Lacks(s, '/', pos, next) && s[next] == '/'
    ensures Separators(s[pos..]) == Separators(s[next + 1..]) + 1
  {
    next := NextSeparator(s, pos);
    SeparatorsSkip(s, pos, next);
    SeparatorsStep(s, next);
  }

  lemma LacksSeparators(s: string, pos: nat)
    requires pos <= |s| && Separators(s[pos..]) == 0
    ensures Lacks(s, '/', pos, |s|)
  {
    forall i | pos <= i < |s|
      ensures s[i] != '/'
    {
      assert s[i] == s[pos..][i - pos];
    }
  }

  lemma {:induction false} StarsReach(tokens: seq<Token>, names: nat, path: string, pos: nat, engine: Engine)
    requires AreStars(tokens, names) && pos <= |path| && Separators(path[pos..]) == names - 1
    ensures Accepts(tokens, path, pos, engine)
  {
    if names == 1 {
      LacksSeparators(path, pos);
      AcceptsName(tokens, path, pos, |path|, engine);
    } else {
      var next := NextName(path, pos);
      StarsReach(tokens[2..], names - 1, path, next + 1, engine);
      AcceptsNameAndSeparator(tokens, path, pos, next, engine);
    }
  }

  lemma {:induction false} SeparatorsOfNames(parts: seq<string>)
    requires parts != [] && AreNames(parts)
    ensures Separators(Join(parts)) == |parts| - 1
  {
    if |parts| > 1 {
      SeparatorsOfNames(parts[..|parts| - 1]);
    }
  }

  lemma StarsAccept(tokens: seq<Token>, names: nat, path: string, engine: Engine)
    requires AreStars(tokens, names)
    ensures Accepts(tokens, path, 0, engine) <==> Separators(path) == names - 1
  {
    assert path[0..] == path;
    if Accepts(tokens, path, 0, engine) {
      StarsCount(tokens, names, path, 0, engine);
    } else if Separators(path) == names - 1 {
      StarsReach(tokens, names, path, 0, engine);
    }
  }

  lemma StarsAreNoSuffix(k: nat)
    requires k > 0
    ensures !IsSuffixPattern(Stars(k))
  {
    assert |Stars(k)| > 1 ==> Stars(k)[1] == '/';
  }

  /** So many stars match the paths of so many names. */
  lemma StarsMatch(parts: seq<string>, k: nat, engine: Engine)
    requires k > 0 && parts != [] && AreNames(parts)
    ensures Matches(Stars(k), Join(parts), engine) <==> |parts| == k
  {
    StarsAreNoSuffix(k);
    StarsTokens(k, 0);
    SeparatorsOfNames(parts);
    StarsAccept(Translate(Stars(k), 0), k, Join(parts), engine);
  }

  /** A leading anchor is no obstacle at the start of the path. */
  lemma AnchorMatchesAtStart(text: string, path: string, engine: Engine)
    requires IsPlain(text)
    ensures Matches("^" + text, path, engine) <==> path == text
  {
    var anchored := "^" + text;
    assert forall i :: 0 < i < |anchored| ==> anchored[i] == text[i - 1];
    assert anchored[1..] == text && path[0..] == path;
    assert anchored[0] == '^';
    LiteralTail(anchored, 1, path, 0, engine);
    assert Translate(anchored, 0) == [StartOfText] + Translate(anchored, 1);
    assert Translate(anchored, 0)[1..] == Translate(anchored, 1);
  }

  predicate IsPlain(text: string) {
    forall i :: 0 <= i < |text| ==> text[i] !in WILDCARDS && text[i] != '^'
  }

  lemma {:induction false} NoWildcards(text: string)
    requires forall i :: 0 <= i < |text| ==> text[i] !in WILDCARDS
    ensures FirstWildcard(text) == |text|
  {}

  /** A text without wildcard or anchor matches itself and nothing else. */
  lemma LiteralMatch(text: string, path: string, engine: Engine)
    requires IsPlain(text)
    ensures Matches(text, path, engine) <==> path == text
  {
    NoWildcards(text);
    assert !IsSuffixPattern(text);
    LiteralTail(text, 0, path, 0, engine);
    assert path[0..] == path && text[0..] == text;
  }

  /** An anchored plain exception is harmful exactly if it names something below a directory. */
  lemma AnchoredPlainIsPruningSafe(text: string, engine: Engine)
    requires IsPlain(text)
    ensures Anchors.IsPruningSafe("^" + text, engine) <==> !('/' in text && IsPath(text))
  {
    var anchored := "^" + text;
    assert anchored[0] == '^' && forall i :: 0 < i < |anchored| ==> anchored[i] == text[i - 1];
    NoWildcards(anchored);
    forall path
      ensures Matches(anchored, path, engine) <==> path == text
    {
      AnchorMatchesAtStart(text, path, engine);
    }
    if '/' in text && IsPath(text) {
      var directory := FirstDirectory(text);
      assert (directory + "/")[0] == text[0] && text[0] in text;
      DifferentDirectory(anchored, directory, 0);
      assert HasPrefix(text, directory + "/") && !Matches(anchored, directory, engine);
    } else if !('/' in text) {
      forall directory, path | HasPrefix(path, directory + "/")
        ensures path != text
      {
        assert path[|directory|] == (directory + "/")[|directory|];
      }
    }
  }
}
