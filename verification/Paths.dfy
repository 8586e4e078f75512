/** POSIX-style relative paths: the text form the exporter compares, and the list of names behind it. */
module Paths {

  /** A directory entry's name: never empty, never holding a separator. */
  predicate IsName(name: string) {
    name != "" && '/' !in name
  }

  predicate AreNames(parts: seq<string>) {
    forall i :: 0 <= i < |parts| ==> IsName(parts[i])
  }

  /** `"/".join(parts)`. */
  function Join(parts: seq<string>): string {
    if parts == [] then ""
    else if |parts| == 1 then parts[0]
    else Join(parts[..|parts| - 1]) + "/" + parts[|parts| - 1]
  }

  /** The index of the last separator, or -1. */
  function LastSlash(s: string): (k: int)
    ensures -1 <= k < |s|
    ensures k >= 0 ==> s[k] == '/'
    ensures forall j :: k < j < |s| ==> s[j] != '/'
  {
    if s == "" then -1
    else if s[|s| - 1] == '/' then |s| - 1
    else LastSlash(s[..|s| - 1])
  }

  /** `s.split("/")`. */
  function Split(s: string): (parts: seq<string>)
    ensures parts != []
    decreases |s|
  {
    var k := LastSlash(s);
    if k < 0 then [s] else Split(s[..k]) + [s[k + 1..]]
  }

  lemma {:induction false} SplitJoin(parts: seq<string>)
    requires parts != [] && AreNames(parts)
    ensures Split(Join(parts)) == parts
  {
    var last := parts[|parts| - 1];
    if |parts| == 1 {
      NoSlash(last);
    } else {
      var init := parts[..|parts| - 1];
      SplitJoin(init);
      LastSlashOfJoin(Join(init), last);
      assert init + [last] == parts;
    }
  }

  lemma NoSlash(s: string)
    requires '/' !in s
    ensures LastSlash(s) == -1
  {}

  lemma LastSlashOfJoin(a: string, name: string)
    requires '/' !in name
    ensures var s := a + "/" + name; LastSlash(s) == |a| && s[..|a|] == a && s[|a| + 1..] == name
  {
    var s := a + "/" + name;
    assert s[|a|] == '/';
    assert forall j :: |a| < j < |s| ==> s[j] == name[j - |a| - 1];
  }

  lemma {:induction false} JoinSplit(s: string)
    ensures Join(Split(s)) == s
    decreases |s|
  {
    var k := LastSlash(s);
    if k >= 0 {
      JoinSplit(s[..k]);
      var init := Split(s[..k]);
      assert (init + [s[k + 1..]])[..|init|] == init;
      assert s == s[..k] + "/" + s[k + 1..];
    }
  }

  /** Everything below a directory has a path text that starts with the directory's text and a separator. */
  lemma {:induction false} JoinBelow(parts: seq<string>, k: nat)
    requires 0 < k < |parts|
    ensures Join(parts[..k]) + "/" <= Join(parts)
  {
    var init := parts[..|parts| - 1];
    if k < |init| {
      JoinBelow(init, k);
      assert init[..k] == parts[..k];
    } else {
      assert init == parts[..k];
    }
  }

  predicate IsEmptyNameAt(s: string, i: nat) {
    i + 1 < |s| && s[i] == '/' && s[i + 1] == '/'
  }

  predicate NoEmptyName(s: string) {
    forall i :: 0 <= i < |s| ==> !IsEmptyNameAt(s, i)
  }

  /** The path texts an entry of a tree can have: names joined by single separators. */
  predicate IsPath(s: string) {
    s != "" && s[0] != '/' && s[|s| - 1] != '/' && NoEmptyName(s)
  }

  lemma {:induction false} NamesMakeAPath(s: string)
    ensures AreNames(Split(s)) <==> IsPath(s)
    decreases |s|
  {
    var k := LastSlash(s);
    if k < 0 {
      assert Split(s) == [s] && [s][0] == s;
      assert forall i :: 0 <= i < |s| ==> s[i] != '/';
    } else {
      NamesMakeAPath(s[..k]);
      NamesAndOne(Split(s[..k]), s[k + 1..]);
      OneMoreName(s, k);
    }
  }

  lemma NamesAndOne(parts: seq<string>, name: string)
    requires '/' !in name
    ensures AreNames(parts + [name]) <==> AreNames(parts) && name != ""
  {
    assert forall i :: 0 <= i < |parts| ==> (parts + [name])[i] == parts[i];
    assert (parts + [name])[|parts|] == name;
  }

  lemma OneMoreName(s: string, k: nat)
    requires k < |s| && s[k] == '/' && forall j :: k < j < |s| ==> s[j] != '/'
    ensures IsPath(s) <==> IsPath(s[..k]) && k + 1 < |s|
  {
    var above := s[..k];
    assert forall i :: 0 <= i < k - 1 ==> IsEmptyNameAt(s, i) == IsEmptyNameAt(above, i);
    if IsPath(above) && k + 1 < |s| {
      assert s[k - 1] == above[k - 1] && s[0] == above[0];
      forall i | 0 <= i < |s|
        ensures !IsEmptyNameAt(s, i)
      {
        assert i < k - 1 ==> !IsEmptyNameAt(above, i);
      }
    }
    if IsPath(s) {
      assert k > 0 && !IsEmptyNameAt(s, k - 1);
    }
  }

  /** What precedes a separator in a path is the path of its first names. */
  lemma {:induction false} FirstNames(path: string, directory: string) returns (k: nat)
    requires IsPath(path) && directory + "/" <= path
    ensures 0 < k < |Split(path)| && Join(Split(path)[..k]) == directory
    decreases |path|
  {
    var last, parts := LastSlash(path), Split(path);
    assert path[|directory|] == (directory + "/")[|directory|] == '/';
    assert parts == Split(path[..last]) + [path[last + 1..]];
    assert path[..|directory|] == directory;
    if last == |directory| {
      JoinSplit(directory);
      k := |parts| - 1;
      assert parts[..k] == Split(directory);
    } else {
      OneMoreName(path, last);
      assert directory + "/" <= path[..last];
      k := FirstNames(path[..last], directory);
      assert parts[..k] == Split(path[..last])[..k];
    }
  }
}
