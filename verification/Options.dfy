// Values that may be absent, and operations that may raise.
module Options {

  datatype Option<+T> = None | Some(value: T)

  /** An upstream address; only compared, never taken apart. */
  datatype Url = Url(address: string)

  function Min(a: nat, b: nat): nat {
    if a < b then a else b
  }

  function Max(a: int, b: int): int {
    if a < b then b else a
  }

  ghost predicate Distinct<T>(s: seq<T>) {
    forall i, j :: 0 <= i < j < |s| ==> s[i] != s[j]
  }

  /** The first place of a member. */
  function FirstOf<T(==)>(s: seq<T>, x: T): (k: nat)
    requires x in s
    ensures k < |s| && s[k] == x && forall j :: 0 <= j < k ==> s[j] != x
  {
    if s[0] == x then 0 else 1 + FirstOf(s[1..], x)
  }
}
