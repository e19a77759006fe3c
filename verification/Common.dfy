/** Shared data types of the model. */
module Common {

  datatype Option<+T> = None | Some(value: T)

  /** One `char` of a buffer or file, read as an unsigned value. */
  type byte = x: int | 0 <= x < 256

  /** The first n elements, or all of them when there are fewer. */
  function Upto<T>(s: seq<T>, n: nat): (r: seq<T>)
    ensures r <= s
    ensures |r| == if n <= |s| then n else |s|
  {
    if n <= |s| then s[..n] else s
  }

  lemma Regroup<T>(a: seq<T>, b: seq<T>, c: seq<T>)
    ensures a + (b + c) == (a + b) + c
    ensures a + [] == a
  {
  }

  /** A small number survives in an unsigned char. */
  lemma Narrow(n: nat)
    requires n < 128
    ensures (n as bv8) as nat == n
  {
    NarrowMod(n);
    Small(n);
  }

  lemma NarrowMod(n: nat)
    requires n < 256
    ensures (n as bv8) as nat == n % 256
  {
  }

  lemma Small(n: nat)
    requires n < 256
    ensures n % 256 == n
  {
  }
}
