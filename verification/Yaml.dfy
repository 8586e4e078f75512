/** YAML values as the loader returns them: no key twice, keys as their text. */
module Yaml {
  import opened Common

  datatype Yaml =
    | Null
    | Plain(text: string)              // a boolean or a number, by the text `str` gives it
    | Text(text: string)
    | List(items: seq<Yaml>)
    | Map(entries: map<string, Yaml>)

  /** Everything that is text anywhere inside: keys and strings. */
  function Scalars(value: Yaml): set<string> {
    match value
    case Text(text) => {text}
    case List(items) => set item, scalar | item in items && scalar in Scalars(item) :: scalar
    case Map(entries) => entries.Keys + set key, scalar | key in entries && scalar in Scalars(entries[key]) :: scalar
    case _ => {}
  }

  /** `one` can be had from `other` by deleting entries and reordering lists, anywhere inside. */
  predicate Within(one: Yaml, other: Yaml) {
    match (one, other)
    case (List(items), List(others)) =>
      forall item :: item in items ==> exists other :: other in others && Within(item, other)
    case (Map(entries), Map(others)) =>
      forall key :: key in entries ==> key in others && Within(entries[key], others[key])
    case _ => one == other
  }

  predicate SameUpToOrder(one: Yaml, other: Yaml) {
    Within(one, other) && Within(other, one)
  }

  lemma {:induction false} WithinItself(value: Yaml)
    ensures Within(value, value)
  {
    match value
    case List(items) =>
      forall item | item in items
        ensures Within(item, item)
      {
        WithinItself(item);
      }
    case Map(entries) =>
      forall key | key in entries
        ensures Within(entries[key], entries[key])
      {
        WithinItself(entries[key]);
      }
    case _ =>
  }

  lemma {:induction false} WithinIsTransitive(one: Yaml, between: Yaml, other: Yaml)
    requires Within(one, between) && Within(between, other)
    ensures Within(one, other)
  {
    match (one, between, other)
    case (List(items), List(middle), List(others)) =>
      forall item | item in items
        ensures exists counterpart :: counterpart in others && Within(item, counterpart)
      {
        var halfway :| halfway in middle && Within(item, halfway);
        var counterpart :| counterpart in others && Within(halfway, counterpart);
        WithinIsTransitive(item, halfway, counterpart);
      }
    case (Map(entries), Map(middle), Map(others)) =>
      forall key | key in entries
        ensures Within(entries[key], others[key])
      {
        WithinIsTransitive(entries[key], middle[key], others[key]);
      }
    case _ =>
  }

  /** Reordering one list. */
  lemma PermutedList(items: seq<Yaml>, others: seq<Yaml>)
    requires multiset(items) == multiset(others)
    ensures SameUpToOrder(List(items), List(others))
  {
    forall item | item in items || item in others
      ensures item in items && item in others && Within(item, item)
    {
      assert item in multiset(items) && item in multiset(others);
      WithinItself(item);
    }
  }

  /** Deleting one entry. */
  lemma DeletedEntry(entries: map<string, Yaml>, key: string)
    ensures Within(Map(entries - {key}), Map(entries))
  {
    forall other | other in entries - {key}
      ensures Within((entries - {key})[other], entries[other])
    {
      WithinItself(entries[other]);
    }
  }

  /** One step down: to the value of a key, or to an item. */
  datatype Step = Key(key: string) | Index(i: nat) {
    predicate Leads(value: Yaml) {
      match this
      case Key(key) => value.Map? && key in value.entries
      case Index(i) => value.List? && i < |value.items|
    }

    function Under(value: Yaml): Yaml
      requires Leads(value)
    {
      match this case Key(key) => value.entries[key] case Index(i) => value.items[i]
    }

    function With(value: Yaml, part: Yaml): Yaml
      requires Leads(value)
    {
      match this case Key(key) => Map(value.entries[key := part]) case Index(i) => List(value.items[i := part])
    }

    /** What is edited within one part is edited within the whole. */
    lemma EditIsWithin(value: Yaml, one: Yaml, other: Yaml)
      requires Leads(value) && Within(one, other)
      ensures Within(With(value, one), With(value, other))
    {
      match this {
        case Key(key) =>
          forall name | name in value.entries && name != key
            ensures Within(value.entries[name], value.entries[name])
          {
            WithinItself(value.entries[name]);
          }
        case Index(i) =>
          var items, others := value.items[i := one], value.items[i := other];
          forall item | item in items
            ensures exists counterpart :: counterpart in others && Within(item, counterpart)
          {
            var j :| 0 <= j < |items| && items[j] == item;
            WithinItself(item);
            assert others[j] in others && Within(item, others[j]);
          }
      }
    }
  }

  /** The part a path of steps leads to. */
  function PartAt(value: Yaml, path: seq<Step>): Option<Yaml> {
    if path == [] then Some(value)
    else if path[0].Leads(value) then PartAt(path[0].Under(value), path[1..])
    else None
  }

  /** The document with that part replaced. */
  function Edited(value: Yaml, path: seq<Step>, part: Yaml): Yaml
    requires PartAt(value, path).Some?
    decreases |path|
  {
    if path == [] then part else path[0].With(value, Edited(path[0].Under(value), path[1..], part))
  }

  /** An edit somewhere inside a document relates the documents as it relates the parts. */
  lemma {:induction false} EditedInside(value: Yaml, path: seq<Step>, one: Yaml, other: Yaml)
    requires PartAt(value, path).Some? && Within(one, other)
    ensures Within(Edited(value, path, one), Edited(value, path, other))
    decreases |path|
  {
    if path != [] {
      var under := path[0].Under(value);
      EditedInside(under, path[1..], one, other);
      path[0].EditIsWithin(value, Edited(under, path[1..], one), Edited(under, path[1..], other));
    }
  }

  lemma {:induction false} EditedWithItself(value: Yaml, path: seq<Step>)
    requires PartAt(value, path).Some?
    ensures Edited(value, path, PartAt(value, path).value) == value
    decreases |path|
  {
    if path != [] {
      EditedWithItself(path[0].Under(value), path[1..]);
    }
  }

  /** Reordering a list anywhere inside. */
  lemma ReorderedAnywhere(value: Yaml, path: seq<Step>, items: seq<Yaml>)
    requires PartAt(value, path).Some? && PartAt(value, path).value.List?
    requires multiset(items) == multiset(PartAt(value, path).value.items)
    ensures SameUpToOrder(Edited(value, path, List(items)), value)
  {
    var part := PartAt(value, path).value;
    PermutedList(items, part.items);
    EditedInside(value, path, List(items), part);
    EditedInside(value, path, part, List(items));
    EditedWithItself(value, path);
  }

  /** Deleting an entry anywhere inside. */
  lemma DeletedAnywhere(value: Yaml, path: seq<Step>, key: string)
    requires PartAt(value, path).Some? && PartAt(value, path).value.Map?
    ensures Within(Edited(value, path, Map(PartAt(value, path).value.entries - {key})), value)
  {
    var part := PartAt(value, path).value;
    DeletedEntry(part.entries, key);
    EditedInside(value, path, Map(part.entries - {key}), part);
    EditedWithItself(value, path);
  }

  lemma {:induction false} ScalarsShrink(one: Yaml, other: Yaml)
    requires Within(one, other)
    ensures Scalars(one) <= Scalars(other)
  {
    match (one, other)
    case (List(items), List(others)) =>
      forall item | item in items
        ensures Scalars(item) <= Scalars(other)
      {
        var counterpart :| counterpart in others && Within(item, counterpart);
        ScalarsShrink(item, counterpart);
      }
    case (Map(entries), Map(others)) =>
      forall key | key in entries
        ensures Scalars(entries[key]) <= Scalars(other)
      {
        ScalarsShrink(entries[key], others[key]);
      }
    case _ =>
  }
}
