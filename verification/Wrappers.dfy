module Wrappers {

  datatype Option<+T> = None | Some(value: T)

  /** A sequence with the element at `i` taken out. */
  function Without<T>(s: seq<T>, i: nat): (r: seq<T>)
    requires i < |s|
    ensures multiset(r) + multiset{s[i]} == multiset(s) && |r| == |s| - 1
  {
    assert s == s[..i] + [s[i]] + s[i + 1..];
    s[..i] + s[i + 1..]
  }
}
