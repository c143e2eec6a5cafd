/** Optional values and fallible results shared by every module of the model. */
module Wrappers {

  /** A value that may be absent (`None` in Python, `Option` in Rust). */
  datatype Option<+T> = None | Some(value: T)

  /** The outcome of an operation that may fail with a message
      (a Rust `Err`, or a Python exception carrying a message). */
  datatype Result<+T> = Ok(value: T) | Err(msg: string)

  /** True when no element occurs twice. */
  predicate NoDup<T(==)>(s: seq<T>) {
    forall i, j :: 0 <= i < j < |s| ==> s[i] != s[j]
  }

  /** The index of the first occurrence of `x` in `s`, if any. */
  function IndexOf<T(==)>(s: seq<T>, x: T): (r: Option<nat>)
    ensures r.Some? <==> x in s
    ensures r.Some? ==>
              r.value < |s| && s[r.value] == x && forall j :: 0 <= j < r.value ==> s[j] != x
    decreases |s|
  {
    if |s| == 0 then None
    else if s[0] == x then Some(0)
    else match IndexOf(s[1..], x)
      case None => None
      case Some(j) => Some(j + 1)
  }

  /** Concatenation is associative; stated once so that large proof contexts need not
      rediscover it. */
  lemma AppendAssoc<T>(a: seq<T>, b: seq<T>, c: seq<T>)
    ensures a + (b + c) == (a + b) + c
  {
  }

  /** The elements of `s` back to front. */
  function Reverse<T>(s: seq<T>): (r: seq<T>)
    ensures |r| == |s|
  {
    if |s| == 0 then [] else Reverse(s[1..]) + [s[0]]
  }

  /** Reversing after a push puts the pushed element in front. */
  lemma {:induction false} ReverseSnoc<T>(s: seq<T>, x: T)
    ensures Reverse(s + [x]) == [x] + Reverse(s)
    decreases |s|
  {
    if |s| > 0 {
      assert (s + [x])[1..] == s[1..] + [x];
      ReverseSnoc(s[1..], x);
    } else {
      assert Reverse([x]) == Reverse([x][1..]) + [x];
    }
  }
}
