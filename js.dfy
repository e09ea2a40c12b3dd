/** The few JavaScript value rules that the watcher relies on: a property that is
    absent reads as `undefined`, an empty string is falsy, and concatenating
    `undefined` onto a string writes the word "undefined". */
module Js {

  /** `None` stands for a property that is `undefined` (or `null`). */
  datatype Option<+T> = None | Some(value: T)

  /** JavaScript truthiness of an optional string: present and non-empty. */
  predicate Truthy(s: Option<string>)
  {
    s.Some? && s.value != ""
  }

  /** What `"" + s` produces for an optional string. */
  function Show(s: Option<string>): string
  {
    if s.Some? then s.value else "undefined"
  }

  /** The conditional `a ? a : b` used for every "explicit setting, else discovered value" choice. */
  function OrElse(a: Option<string>, b: Option<string>): Option<string>
  {
    if Truthy(a) then a else b
  }

  /** `indexOf` on strings and arrays: the first position holding `x`, or -1. */
  function IndexOf<T(==)>(s: seq<T>, x: T): (i: int)
    ensures -1 <= i < |s|
    ensures i == -1 <==> x !in s
    ensures 0 <= i ==> s[i] == x && x !in s[..i]
  {
    if s == [] then -1
    else if s[0] == x then 0
    else
      var j := IndexOf(s[1..], x);
      assert s[1..][..if j < 0 then 0 else j] == s[1..if j < 0 then 1 else j + 1];
      if j < 0 then -1 else j + 1
  }

  /** The first occurrence of `x` in `p + [x] + rest` is right after `p` when `p` lacks `x`. */
  lemma {:induction false} IndexOfAfterPrefix<T>(p: seq<T>, x: T, rest: seq<T>)
    requires x !in p
    ensures IndexOf(p + [x] + rest, x) == |p|
  {
    if p != [] {
      assert (p + [x] + rest)[1..] == p[1..] + [x] + rest;
      IndexOfAfterPrefix(p[1..], x, rest);
    }
  }

  /** All but the last element of a non-empty sequence. */
  function Init<T>(s: seq<T>): seq<T>
    requires |s| > 0
  {
    s[..|s| - 1]
  }

  /** The last element of a non-empty sequence. */
  function Last<T>(s: seq<T>): T
    requires |s| > 0
  {
    s[|s| - 1]
  }

  /** Concatenation regroups freely. */
  lemma AppendAssociates<T>(a: seq<T>, b: seq<T>, c: seq<T>)
    ensures a + b + c == a + (b + c)
  {
  }
}
