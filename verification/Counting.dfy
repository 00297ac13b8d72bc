/** How often something occurs in a sequence. */
module Counting {
  function Count<T(==)>(s: seq<T>, x: T): nat {
    if s == [] then 0 else (if s[0] == x then 1 else 0) + Count(s[1..], x)
  }

  lemma {:induction false} CountAppend<T>(a: seq<T>, b: seq<T>, x: T)
    ensures Count(a + b, x) == Count(a, x) + Count(b, x)
  {
    if a == [] {
      assert a + b == b;
    } else {
      assert (a + b)[1..] == a[1..] + b;
      CountAppend(a[1..], b, x);
    }
  }

  function Copies<T>(x: T, n: nat): (r: seq<T>)
    ensures |r| == n
  {
    seq(n, _ => x)
  }

  lemma {:induction false} CountCopies<T>(x: T, n: nat, y: T)
    ensures Count(Copies(x, n), y) == if x == y then n else 0
  {
    if n > 0 {
      CountCopies(x, n - 1, y);
      assert Copies(x, n)[1..] == Copies(x, n - 1);
    }
  }

  lemma {:induction false} CountIn<T>(s: seq<T>, x: T)
    ensures x in s <==> Count(s, x) > 0
  {
    if s != [] {
      CountIn(s[1..], x);
    }
  }
}
