/** Which variables a Compose text refers to, and the `$$` escape. */
module VariableNames {
  import opened Common

  predicate IsNameCharacter(c: char) {
    'a' <= c <= 'z' || 'A' <= c <= 'Z' || IsDigit(c) || c == '_'
  }

  /** How many dollars stand right before this position. */
  function DollarsBefore(text: string, position: nat): (n: nat)
    requires position <= |text|
    ensures n <= position
  {
    if position == 0 || text[position - 1] != '$' then 0 else 1 + DollarsBefore(text, position - 1)
  }

  /** A dollar that starts a reference: not half of an escape on either side. */
  predicate IsActive(text: string, position: nat) {
    && position < |text| && text[position] == '$'
    && DollarsBefore(text, position) % 2 == 0
    && !(position + 1 < |text| && text[position + 1] == '$')
  }

  /** Where the name after this dollar would start. */
  function NameStart(text: string, position: nat): (start: nat)
    requires position < |text|
    ensures position < start <= |text|
  {
    if position + 1 < |text| && text[position + 1] == '{' then position + 2 else position + 1
  }

  /** Where the run of name characters from here ends. */
  function NameEnd(text: string, start: nat): (end: nat)
    requires start <= |text|
    ensures start <= end <= |text|
    ensures forall i :: start <= i < end ==> IsNameCharacter(text[i])
    ensures end < |text| ==> !IsNameCharacter(text[end])
    decreases |text| - start
  {
    if start < |text| && IsNameCharacter(text[start]) then NameEnd(text, start + 1) else start
  }

  function NameAfter(text: string, position: nat): string
    requires position < |text|
  {
    var start := NameStart(text, position);
    text[start..NameEnd(text, start)]
  }

  predicate IsName(name: string) {
    name != "" && !IsDigit(name[0])
  }

  /** The names referred to before this position. */
  function NamesBefore(text: string, position: nat): set<string> {
    set p | 0 <= p < |text| && p < position && IsActive(text, p) && IsName(NameAfter(text, p)) :: NameAfter(text, p)
  }

  /** The names referred to anywhere, also inside the default of another reference. */
  function Names(text: string): set<string> {
    NamesBefore(text, |text|)
  }

  /** A stretch without active dollars adds no name. */
  lemma QuietStretch(text: string, from: nat, to: nat)
    requires from <= to && forall p :: from <= p < to ==> !IsActive(text, p)
    ensures NamesBefore(text, to) == NamesBefore(text, from)
  {}

  lemma OneReference(text: string, position: nat)
    requires IsActive(text, position)
    ensures NamesBefore(text, position + 1) ==
            NamesBefore(text, position) + if IsName(NameAfter(text, position)) then {NameAfter(text, position)} else {}
  {}

  /** After a reference the scan goes on behind its name, where no escape is cut in half. */
  lemma BehindTheName(text: string, position: nat, next: nat)
    requires IsActive(text, position)
    requires var end := NameEnd(text, NameStart(text, position));
             next == if end > position + 1 then end else position + 1
    ensures NamesBefore(text, next) ==
            NamesBefore(text, position) + if IsName(NameAfter(text, position)) then {NameAfter(text, position)} else {}
    ensures next < |text| && text[next] == '$' ==> DollarsBefore(text, next) % 2 == 0
  {
    OneReference(text, position);
    QuietStretch(text, position + 1, next);
  }

  lemma BehindTheEscape(text: string, position: nat)
    requires position + 1 < |text| && text[position] == '$' && text[position + 1] == '$'
    requires DollarsBefore(text, position) % 2 == 0
    ensures NamesBefore(text, position + 2) == NamesBefore(text, position)
    ensures DollarsBefore(text, position + 2) % 2 == 0
  {}

  method ScanName(text: string, start: nat) returns (end: nat)
    requires start <= |text|
    ensures end == NameEnd(text, start)
  {
    end := start;
    while end < |text| && IsNameCharacter(text[end])
      invariant start <= end <= |text|
      invariant NameEnd(text, start) == NameEnd(text, end)
    {
      end := end + 1;
    }
  }

  /** The scanner `variable_names`: one pass, skipping escapes and names as wholes. */
  method VariableNames(text: string) returns (names: set<string>)
    ensures names == Names(text)
  {
    names := {};
    var index := 0;
    while index < |text|
      invariant index <= |text|
      invariant index < |text| && text[index] == '$' ==> DollarsBefore(text, index) % 2 == 0
      invariant names == NamesBefore(text, index)
      decreases |text| - index
    {
      if text[index] != '$' {
        QuietStretch(text, index, index + 1);
        index := index + 1;
      } else if index + 1 < |text| && text[index + 1] == '$' {
        BehindTheEscape(text, index);
        index := index + 2;
      } else {
        var start := if index + 1 < |text| && text[index + 1] == '{' then index + 2 else index + 1;
        var end := ScanName(text, start);
        var name := text[start..end];
        if name != "" && !IsDigit(name[0]) {
          names := names + {name};
        }
        var next := if end > index + 1 then end else index + 1;
        BehindTheName(text, index, next);
        index := next;
      }
    }
  }

  /** `text.replace("$", "$$")` */
  function Doubled(text: string): string {
    if text == "" then "" else (if text[0] == '$' then "$$" else [text[0]]) + Doubled(text[1..])
  }

  /** `text.replace("$$", "$")` */
  function Undoubled(text: string): string {
    if text == "" then
      ""
    else if |text| >= 2 && text[0] == '$' && text[1] == '$' then
      "$" + Undoubled(text[2..])
    else
      [text[0]] + Undoubled(text[1..])
  }

  /** Un-doubling a doubled text returns the original. */
  lemma {:induction false} UndoublingUndoesDoubling(text: string)
    ensures Undoubled(Doubled(text)) == text
  {
    if text != "" {
      UndoublingUndoesDoubling(text[1..]);
      var doubled, rest := Doubled(text), Doubled(text[1..]);
      if text[0] == '$' {
        assert doubled[2..] == rest;
      } else {
        assert doubled[1..] == rest;
      }
    }
  }

  lemma {:induction false} DollarsBeforeInPrefix(text: string, more: string, position: nat)
    requires position <= |text|
    ensures DollarsBefore(text + more, position) == DollarsBefore(text, position)
  {
    if position > 0 {
      DollarsBeforeInPrefix(text, more, position - 1);
    }
  }

  /** After a text that ends in whole escapes, a doubled text has no active dollar. */
  lemma {:induction false} DoubledIsQuiet(before: string, text: string)
    requires DollarsBefore(before, |before|) % 2 == 0
    ensures forall p :: |before| <= p < |before + Doubled(text)| ==> !IsActive(before + Doubled(text), p)
    decreases |text|
  {
    if text != "" {
      var whole := before + Doubled(text);
      var first := if text[0] == '$' then "$$" else [text[0]];
      var next := before + first;
      assert whole == next + Doubled(text[1..]);
      DollarsBeforeInPrefix(before, first, |before|);
      if text[0] == '$' {
        assert DollarsBefore(next, |before| + 1) == DollarsBefore(next, |before|) + 1;
        assert DollarsBefore(next, |before| + 2) == DollarsBefore(next, |before| + 1) + 1;
        DollarsBeforeInPrefix(next, Doubled(text[1..]), |before| + 1);
        assert whole[|before| + 1] == '$';
      }
      DoubledIsQuiet(next, text[1..]);
    }
  }

  /** A text whose dollars were doubled refers to nothing. */
  lemma DoubledTextHasNoNames(text: string)
    ensures Names(Doubled(text)) == {}
  {
    DoubledIsQuiet("", text);
    assert "" + Doubled(text) == Doubled(text);
  }
}
