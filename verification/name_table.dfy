/** Name/number tables: arrays of (name, value) pairs that the server's token
    library searches from the front, comparing names without regard to ASCII
    case, in both directions (`fr_str2int` and `fr_int2str`). */
module NameTable {

  /** ASCII lower-casing of one character, as `strcasecmp` folds it. */
  function LowerChar(c: char): char
  {
    if 'A' <= c <= 'Z' then (c as int - 'A' as int + 'a' as int) as char else c
  }

  function Lower(s: string): string
  {
    seq(|s|, i requires 0 <= i < |s| => LowerChar(s[i]))
  }

  /** Two names match when they are equal ignoring ASCII case. */
  predicate SameName(a: string, b: string)
  {
    Lower(a) == Lower(b)
  }

  /** A lookup table, searched in order. */
  type Table<T> = seq<(string, T)>

  predicate HasName<T>(t: Table<T>, name: string)
  {
    exists i :: 0 <= i < |t| && SameName(t[i].0, name)
  }

  predicate HasValue<T(==)>(t: Table<T>, v: T)
  {
    exists i :: 0 <= i < |t| && t[i].1 == v
  }

  /** No entry before index `i` is named `name`. */
  predicate NoEarlierName<T>(t: Table<T>, name: string, i: nat)
    requires i <= |t|
  {
    forall j :: 0 <= j < i ==> !SameName(t[j].0, name)
  }

  /** No entry before index `i` carries the value `v`. */
  predicate NoEarlierValue<T(==)>(t: Table<T>, v: T, i: nat)
    requires i <= |t|
  {
    forall j :: 0 <= j < i ==> t[j].1 != v
  }

  predicate DistinctNames<T>(t: Table<T>)
  {
    forall i, j :: 0 <= i < j < |t| ==> !SameName(t[i].0, t[j].0)
  }

  /** `fr_str2int`: the value of the first entry named `name`, or `default`. */
  function Str2Int<T>(t: Table<T>, name: string, default: T): (r: T)
    ensures !HasName(t, name) ==> r == default
    ensures forall i :: 0 <= i < |t| && SameName(t[i].0, name) && NoEarlierName(t, name, i) ==> r == t[i].1
    ensures HasName(t, name) ==> exists i :: 0 <= i < |t| && SameName(t[i].0, name) && r == t[i].1
  {
    if |t| == 0 then default
    else if SameName(t[0].0, name) then t[0].1
    else
      var r := Str2Int(t[1..], name, default);
      assert forall i :: 1 <= i < |t| ==> t[i] == t[1..][i - 1];
      r
  }

  /** `fr_int2str`: the name of the first entry carrying `v`, or `default`. */
  function Int2Str<T(==)>(t: Table<T>, v: T, default: string): (r: string)
    ensures !HasValue(t, v) ==> r == default
    ensures forall i :: 0 <= i < |t| && t[i].1 == v && NoEarlierValue(t, v, i) ==> r == t[i].0
    ensures HasValue(t, v) ==> exists i :: 0 <= i < |t| && t[i].1 == v && r == t[i].0
  {
    if |t| == 0 then default
    else if t[0].1 == v then t[0].0
    else
      var r := Int2Str(t[1..], v, default);
      assert forall i :: 1 <= i < |t| ==> t[i] == t[1..][i - 1];
      r
  }

  /** Looking a value's name back up yields the value, provided no two
      entries share a name. */
  lemma NameRoundTrip<T>(t: Table<T>, v: T, dflt: string, d: T)
    requires DistinctNames(t)
    requires HasValue(t, v)
    ensures Str2Int(t, Int2Str(t, v, dflt), d) == v
  {
  }
}
