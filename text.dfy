/** Character counting and repetition on strings: Python's `s.count(c)` for a
    one-character `c`, and `c * n`. */
module Text {

  const TAB: char := '\t'
  const NEWLINE: char := '\n'

  /** Number of occurrences of the character `c` in `s`. */
  function Count(s: string, c: char): (n: nat)
    ensures n <= |s|
    ensures n == 0 <==> c !in s
  {
    if s == [] then 0
    else
      assert s == s[..|s| - 1] + [s[|s| - 1]];
      Count(s[..|s| - 1], c) + (if s[|s| - 1] == c then 1 else 0)
  }

  /** The string made of `n` copies of `c`. */
  function Repeat(c: char, n: nat): (r: string)
    ensures |r| == n
    ensures forall i :: 0 <= i < |r| ==> r[i] == c
  {
    if n == 0 then [] else Repeat(c, n - 1) + [c]
  }

  /** Counting distributes over concatenation. */
  lemma {:induction false} CountConcat(a: string, b: string, c: char)
    ensures Count(a + b, c) == Count(a, c) + Count(b, c)
  {
    if b != [] {
      var ab := a + b;
      assert ab[..|ab| - 1] == a + b[..|b| - 1];
      assert ab[|ab| - 1] == b[|b| - 1];
      CountConcat(a, b[..|b| - 1], c);
    } else {
      assert a + b == a;
    }
  }

  /** `n` copies of `c` hold `c` exactly `n` times and no other character. */
  lemma {:induction false} CountRepeat(c: char, n: nat, d: char)
    ensures Count(Repeat(c, n), d) == if d == c then n else 0
  {
    if n > 0 {
      var r := Repeat(c, n);
      assert r == Repeat(c, n - 1) + [c];
      assert r[..n - 1] == Repeat(c, n - 1);
      CountRepeat(c, n - 1, d);
      assert Count(r, d) == Count(Repeat(c, n - 1), d) + (if c == d then 1 else 0);
    }
  }
}
