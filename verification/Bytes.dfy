/** Bytes and byte strings, shared by the wire-format modules. */
module Bytes {

  type byte = b: int | 0 <= b < 256

  function Flatten(chunks: seq<seq<byte>>): seq<byte> {
    if chunks == [] then [] else chunks[0] + Flatten(chunks[1..])
  }

  lemma {:induction false} FlattenAppend(xs: seq<seq<byte>>, ys: seq<seq<byte>>)
    ensures Flatten(xs + ys) == Flatten(xs) + Flatten(ys)
  {
    if xs == [] {
      assert xs + ys == ys;
    } else {
      assert (xs + ys)[1..] == xs[1..] + ys;
      FlattenAppend(xs[1..], ys);
    }
  }

  function Repeat<T>(n: nat, x: T): seq<T> { seq(n, _ => x) }

  lemma Assoc<T>(a: seq<T>, b: seq<T>, c: seq<T>)
    ensures (a + b) + c == a + (b + c)
  {
  }

  lemma Unit<T>(a: seq<T>)
    ensures a + [] == a && [] + a == a
  {
  }

  /** Concatenations nested to the right and to the left. */
  lemma Nested<T>(a: seq<T>, b: seq<T>, c: seq<T>, d: seq<T>, e: seq<T>, f: seq<T>)
    ensures a + (b + (c + (d + (e + f)))) == a + b + c + d + e + f
  {
    Assoc(a + b + c + d, e, f);
    Assoc(a + b + c, d, e + f);
    Assoc(a + b, c, d + (e + f));
    Assoc(a, b, c + (d + (e + f)));
  }

  lemma NestedFour<T>(a: seq<T>, b: seq<T>, c: seq<T>, d: seq<T>)
    ensures a + (b + (c + d)) == a + b + c + d
  {
    Assoc(a + b, c, d);
    Assoc(a, b, c + d);
  }

  /** Taking one more element. */
  lemma PrefixNext<T>(a: seq<T>, i: nat)
    requires i < |a|
    ensures a[..i + 1] == a[..i] + [a[i]]
  {
  }

  lemma PrefixEnds<T>(a: seq<T>)
    ensures a[..0] == [] && a[..|a|] == a
  {
  }
}
