/** Option and Result, and the small helpers every component shares. */
module Wrappers {

  datatype Option<+T> = None | Some(value: T)

  datatype Result<+T, +E> = Ok(value: T) | Err(error: E)

  function Min(a: int, b: int): int {
    if a <= b then a else b
  }

  /** The concatenation of a sequence of sequences, read from the right end. */
  function Flatten<T>(parts: seq<seq<T>>): seq<T> {
    if parts == [] then [] else Flatten(parts[..|parts| - 1]) + parts[|parts| - 1]
  }

  lemma {:induction false} FlattenAppend<T>(a: seq<seq<T>>, b: seq<seq<T>>)
    ensures Flatten(a + b) == Flatten(a) + Flatten(b)
  {
    if b == [] {
      assert a + b == a;
    } else {
      var n := |b| - 1;
      FlattenAppend(a, b[..n]);
      assert (a + b)[..|a + b| - 1] == a + b[..n];
      assert (a + b)[|a + b| - 1] == b[n];
      assert Flatten(a + b) == Flatten(a + b[..n]) + b[n];
    }
  }

  /** k * width by repeated addition, so that proofs about offsets stay linear. */
  function Times(k: nat, width: nat): nat {
    if k == 0 then 0 else Times(k - 1, width) + width
  }

  lemma {:induction false} TimesIsProduct(k: nat, width: nat)
    ensures Times(k, width) == k * width
  {
    if k > 0 {
      TimesIsProduct(k - 1, width);
      assert k * width == (k - 1) * width + width;
    }
  }

  lemma {:induction false} TimesAdd(a: nat, b: nat, width: nat)
    ensures Times(a + b, width) == Times(a, width) + Times(b, width)
  {
    if b > 0 { TimesAdd(a, b - 1, width); }
  }

  lemma TimesLess(a: nat, b: nat, width: nat)
    requires a < b
    ensures Times(a, width) + width <= Times(b, width)
  {
    TimesAdd(a + 1, b - a - 1, width);
  }

  lemma QuotientIsUnique(x: nat, width: nat, q: nat, r: nat)
    requires r < width && x == q * width + r
    ensures x / width == q && x % width == r
  {
    var p := x / width;
    assert x == p * width + x % width;
    if p < q {
      ProductLess(p, q, width);
    } else if q < p {
      ProductLess(q, p, width);
    }
  }

  lemma ProductLess(a: nat, b: nat, c: nat)
    requires a < b
    ensures a * c + c <= b * c
  {
    assert b * c == a * c + c + (b - a - 1) * c;
  }

  lemma TimesMod(k: nat, width: nat)
    requires width > 0
    ensures Times(k, width) % width == 0 && Times(k, width) / width == k
  {
    TimesIsProduct(k, width);
    QuotientIsUnique(Times(k, width), width, k, 0);
  }

  lemma TimesOfQuotient(n: nat, width: nat)
    requires width > 0
    ensures Times(n / width, width) == n - n % width
  {
    TimesIsProduct(n / width, width);
  }
}
