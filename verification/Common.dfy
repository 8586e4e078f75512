/** Small types and predicates shared by the models. */
module Common {

  datatype Option<+T> = None | Some(value: T) {
    function GetOr(default: T): T {
      if Some? then value else default
    }
  }

  datatype Result<+T, +E> = Ok(value: T) | Err(error: E) {
    predicate IsFailure() {
      Err?
    }

    function PropagateFailure<U>(): Result<U, E>
      requires Err?
    {
      Err(error)
    }

    function Extract(): T
      requires Ok?
    {
      value
    }

    function GetOr(default: T): T {
      if Ok? then value else default
    }
  }

  /** `mapping.get(key)` */
  function Get<K, V>(m: map<K, V>, k: K): Option<V> {
    if k in m then Some(m[k]) else None
  }

  lemma SameLookups<K, V>(one: map<K, V>, other: map<K, V>)
    requires forall key :: Get(one, key) == Get(other, key)
    ensures one == other
  {
    assert forall key :: key in one <==> Get(one, key).Some?;
    assert forall key :: key in other <==> Get(other, key).Some?;
    assert forall key :: key in one ==> Get(one, key) == Some(one[key]);
    assert forall key :: key in other ==> Get(other, key) == Some(other[key]);
  }

  type Byte = b: int | 0 <= b < 256

  predicate IsDigit(c: char) {
    '0' <= c <= '9'
  }

  predicate IsHexDigit(c: char) {
    IsDigit(c) || 'a' <= c <= 'f'
  }

  predicate IsHex(s: string, length: nat) {
    |s| == length && forall i :: 0 <= i < |s| ==> IsHexDigit(s[i])
  }

  const IMAGE_ID_PREFIX := "sha256:"

  predicate IsImageId(id: string) {
    IMAGE_ID_PREFIX <= id && IsHex(id[|IMAGE_ID_PREFIX|..], 64)
  }
}
