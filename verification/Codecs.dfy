/** Encoders and decoders as inverse pairs, and counted runs of one element kind. */
module Codecs {
  import opened Wire

  /** `get` undoes `put` whatever follows, and accepts nothing but what `put` writes. */
  ghost predicate Inverse<T(!new)>(put: T -> Bytes, get: Bytes -> Parse<T>) {
    && (forall x, rest :: get(put(x) + rest) == Good(x, rest))
    && (forall b :: get(b).Good? ==> b == put(get(b).val) + get(b).rest)
  }

  function PutAll<T>(put: T -> Bytes, xs: seq<T>): Bytes {
    if xs == [] then [] else put(xs[0]) + PutAll(put, xs[1..])
  }

  /** Exactly `n` elements from the front of `b`. */
  function GetMany<T>(get: Bytes -> Parse<T>, b: Bytes, n: nat): (p: Parse<seq<T>>)
    ensures p.Good? ==> |p.val| == n
    decreases n
  {
    if n == 0 then Good([], b)
    else
      var head := get(b);
      if head.Bad? then Bad
      else
        var tail := GetMany(get, head.rest, n - 1);
        if tail.Bad? then Bad else Good([head.val] + tail.val, tail.rest)
  }

  lemma {:induction false} GetManyAfterPut<T(!new)>(put: T -> Bytes, get: Bytes -> Parse<T>, xs: seq<T>, rest: Bytes)
    requires Inverse(put, get)
    ensures GetMany(get, PutAll(put, xs) + rest, |xs|) == Good(xs, rest)
  {
    if xs == [] {
      assert PutAll(put, xs) + rest == rest;
    } else {
      var after := PutAll(put, xs[1..]) + rest;
      assert PutAll(put, xs) + rest == put(xs[0]) + after;
      GetManyAfterPut(put, get, xs[1..], rest);
      assert [xs[0]] + xs[1..] == xs;
    }
  }

  lemma {:induction false} PutAfterGetMany<T(!new)>(put: T -> Bytes, get: Bytes -> Parse<T>, b: Bytes, n: nat)
    requires Inverse(put, get)
    requires GetMany(get, b, n).Good?
    ensures b == PutAll(put, GetMany(get, b, n).val) + GetMany(get, b, n).rest
    decreases n
  {
    if n == 0 {
      assert b == PutAll(put, []) + b;
    } else {
      var head := get(b);
      var tail := GetMany(get, head.rest, n - 1);
      PutAfterGetMany(put, get, head.rest, n - 1);
      var all := [head.val] + tail.val;
      assert all[1..] == tail.val;
      assert b == put(head.val) + (PutAll(put, tail.val) + tail.rest)
               == (put(head.val) + PutAll(put, tail.val)) + tail.rest;
    }
  }

  /** One step of a counted run: its first element, and the run that is left. */
  lemma {:induction false} NextOfMany<T>(get: Bytes -> Parse<T>, b: Bytes, n: nat) returns (left: Parse<seq<T>>)
    requires n > 0 && GetMany(get, b, n).Good?
    ensures get(b).Good? && left == GetMany(get, get(b).rest, n - 1) && left.Good?
    ensures GetMany(get, b, n).val == [get(b).val] + left.val
    ensures GetMany(get, b, n).rest == left.rest
  {
    left := GetMany(get, get(b).rest, n - 1);
  }

  lemma RunDone<T>(get: Bytes -> Parse<T>, b: Bytes)
    ensures GetMany(get, b, 0) == Good([], b)
  {
  }
}
