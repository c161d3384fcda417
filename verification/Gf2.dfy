/**
 Polynomials over the two-element field, and the bit-serial division register that
 every cyclic redundancy check computes.

 A polynomial is a sequence of coefficients, highest power first. A generator of degree w
 is given by its w low coefficients; the leading x^w is implicit, as it is in the hexadecimal
 constants 0xD5 and 0x1021. The theory is stated once for a generator of any degree; modules
 Crc8 and Crc16 instantiate it.
 */
module Gf2 {

  type Bits = seq<bool>

  function Zeros(n: nat): (z: Bits)
    ensures |z| == n
  {
    seq(n, _ => false)
  }

  /** Addition of polynomials with equally many coefficients. */
  function Xor(a: Bits, b: Bits): (c: Bits)
    requires |a| == |b|
    ensures |c| == |a|
    ensures forall i :: 0 <= i < |a| ==> c[i] == (a[i] != b[i])
  {
    seq(|a|, i requires 0 <= i < |a| => a[i] != b[i])
  }

  lemma XorAppend(a: Bits, b: Bits, c: Bits, d: Bits)
    requires |a| == |b| && |c| == |d|
    ensures Xor(a + c, b + d) == Xor(a, b) + Xor(c, d)
  {
  }

  /** True iff an odd number of the bits are set. */
  function Parity(bits: Bits): bool {
    if bits == [] then false else Parity(bits[..|bits| - 1]) != bits[|bits| - 1]
  }

  /** A generator with constant term 1; its degree is its number of low coefficients. */
  predicate Generator(g: Bits) {
    |g| > 0 && g[|g| - 1]
  }

  /** One clock of the division register: shift in a zero, subtract g if a one falls out. */
  function Step(r: Bits, input: bool, g: Bits): (r': Bits)
    requires Generator(g) && |r| == |g|
    ensures |r'| == |g|
  {
    var shifted := r[1..] + [false];
    if r[0] != input then Xor(shifted, g) else shifted
  }

  function Run(r: Bits, input: Bits, g: Bits): (r': Bits)
    requires Generator(g) && |r| == |g|
    ensures |r'| == |g|
    decreases |input|
  {
    if input == [] then r else Step(Run(r, input[..|input| - 1], g), input[|input| - 1], g)
  }

  lemma {:induction false} RunAppend(r: Bits, a: Bits, b: Bits, g: Bits)
    requires Generator(g) && |r| == |g|
    ensures Run(r, a + b, g) == Run(Run(r, a, g), b, g)
    decreases |b|
  {
    if b == [] {
      assert a + b == a;
    } else {
      var b' := b[..|b| - 1];
      RunAppend(r, a, b', g);
      assert (a + b)[..|a + b| - 1] == a + b';
    }
  }

  lemma RunCons(r: Bits, x: bool, rest: Bits, g: Bits)
    requires Generator(g) && |r| == |g|
    ensures Run(r, [x] + rest, g) == Run(Step(r, x, g), rest, g)
  {
    RunAppend(r, [x], rest, g);
    assert [x][..0] == [];
  }

  // ----- Division with remainder -----

  /** The product q*g, by Horner's rule on the coefficients of q. */
  function Product(q: Bits, g: Bits): (p: Bits)
    requires Generator(g)
    ensures |p| == |q| + |g|
  {
    if q == [] then Zeros(|g|)
    else
      var last := |q| - 1;
      var shifted := Product(q[..last], g) + [false];
      if q[last] then Xor(shifted, Zeros(last) + ([true] + g)) else shifted
  }

  /** The bits that fall out of the register. */
  function Quotient(m: Bits, g: Bits): (q: Bits)
    requires Generator(g)
    ensures |q| == |m|
  {
    if m == [] then []
    else
      var m' := m[..|m| - 1];
      Quotient(m', g) + [Run(Zeros(|g|), m', g)[0] != m[|m| - 1]]
  }

  /** m*x^w == q*g + rem, where rem has degree below w. */
  ghost predicate Divides(m: Bits, q: Bits, rem: Bits, g: Bits)
    requires Generator(g)
  {
    && |rem| == |g|
    && |q| == |m|
    && m + Zeros(|g|) == Xor(Product(q, g), Zeros(|m|) + rem)
  }

  /** One step of the long division. */
  lemma DivisionStep(m: Bits, x: bool, q: Bits, r: Bits, g: Bits)
    requires Generator(g) && Divides(m, q, r, g)
    ensures Divides(m + [x], q + [r[0] != x], Step(r, x, g), g)
  {
    var n, w, o, r' := |m|, |g|, r[0] != x, Step(r, x, g);
    var p, before := Product(q, g), Xor(Product(q, g), Zeros(n) + r);
    assert (q + [o])[..n] == q;
    var p' := Product(q + [o], g);
    var lhs, rhs := m + [x] + Zeros(w), Xor(p', Zeros(n + 1) + r');
    forall i | 0 <= i < n + w
      ensures p[i] == if i < n then m[i] else r[i - n]
    {
      assert before[i] == (m + Zeros(w))[i];
    }
    forall i | 0 <= i < n + 1 + w
      ensures p'[i] == ((i < n + w && p[i]) != (o && i >= n && (i == n || g[i - n - 1])))
    {
    }
    forall i | 0 <= i < n + 1 + w
      ensures lhs[i] == rhs[i]
    {
    }
  }

  /** The register ends up holding the remainder of m*x^w. */
  lemma {:induction false} RunIsRemainder(m: Bits, g: Bits)
    requires Generator(g)
    ensures Divides(m, Quotient(m, g), Run(Zeros(|g|), m, g), g)
    decreases |m|
  {
    if m != [] {
      var n := |m| - 1;
      RunIsRemainder(m[..n], g);
      hide Divides, Step;
      DivisionStep(m[..n], m[n], Quotient(m[..n], g), Run(Zeros(|g|), m[..n], g), g);
      assert m[..n] + [m[n]] == m;
    }
  }

  lemma HornerOne(q: Bits, g: Bits)
    requires Generator(g) && q != [] && q[|q| - 1]
    ensures var n := |q| - 1; Product(q, g) == Xor(Product(q[..n], g) + [false], Zeros(n) + ([true] + g))
  {
  }

  lemma HornerZero(q: Bits, g: Bits)
    requires Generator(g) && q != [] && !q[|q| - 1]
    ensures Product(q, g) == Product(q[..|q| - 1], g) + [false]
  {
  }

  lemma XorReorders(a: Bits, b: Bits, t: Bits)
    requires |a| == |b| == |t|
    ensures Xor(Xor(a, t), b) == Xor(a, Xor(b, t)) == Xor(Xor(a, b), t)
    ensures Xor(Xor(a, t), Xor(b, t)) == Xor(a, b)
  {
  }

  lemma {:induction false} ProductAdds(q1: Bits, q2: Bits, g: Bits)
    requires Generator(g) && |q1| == |q2|
    ensures Product(Xor(q1, q2), g) == Xor(Product(q1, g), Product(q2, g))
    decreases |q1|
  {
    hide Product;
    if q1 == [] {
      NoProduct(g);
      assert Xor(q1, q2) == [];
    } else {
      var n := |q1| - 1;
      var q := Xor(q1, q2);
      ProductAdds(q1[..n], q2[..n], g);
      assert q[..n] == Xor(q1[..n], q2[..n]);
      var (a, b) := (Product(q1[..n], g) + [false], Product(q2[..n], g) + [false]);
      XorAppend(Product(q1[..n], g), Product(q2[..n], g), [false], [false]);
      XorReorders(a, b, Zeros(n) + ([true] + g));
      if q1[n] { HornerOne(q1, g); } else { HornerZero(q1, g); }
      if q2[n] { HornerOne(q2, g); } else { HornerZero(q2, g); }
      if q[n] { HornerOne(q, g); } else { HornerZero(q, g); }
    }
  }

  lemma NoProduct(g: Bits)
    requires Generator(g)
    ensures Product([], g) == Zeros(|g|) == Xor(Zeros(|g|), Zeros(|g|))
  {
  }

  /** A product q*g whose |q| highest coefficients vanish is the zero product. */
  lemma {:induction false} SmallProductIsZero(q: Bits, g: Bits)
    requires Generator(g)
    requires forall i :: 0 <= i < |q| ==> !Product(q, g)[i]
    ensures Product(q, g) == Zeros(|q| + |g|)
    decreases |q|
  {
    if q != [] {
      var n := |q| - 1;
      var p' := Product(q[..n], g);
      assert forall i :: 0 <= i < n ==> Product(q, g)[i] == p'[i];
      SmallProductIsZero(q[..n], g);
      assert p'[n] == false;
      assert Product(q, g)[n] == q[n];
    }
  }

  /** There is only one remainder: any division of m*x^w by g has the register's value as rest. */
  lemma RemainderIsUnique(m: Bits, q: Bits, rem: Bits, g: Bits)
    requires Generator(g) && Divides(m, q, rem, g)
    ensures rem == Run(Zeros(|g|), m, g)
  {
    RunIsRemainder(m, g);
    var q1, r1 := Quotient(m, g), Run(Zeros(|g|), m, g);
    ProductAdds(q, q1, g);
    var n, d := |m|, Product(Xor(q, q1), g);
    var a, b := Xor(Product(q, g), Zeros(n) + rem), Xor(Product(q1, g), Zeros(n) + r1);
    assert forall i :: 0 <= i < n + |g| ==> a[i] == b[i];
    assert forall i :: 0 <= i < n ==> !d[i] by {
      assert forall i :: 0 <= i < n ==> a[i] == Product(q, g)[i] && b[i] == Product(q1, g)[i];
    }
    SmallProductIsZero(Xor(q, q1), g);
    forall i | 0 <= i < |g|
      ensures rem[i] == r1[i]
    {
      assert a[n + i] == b[n + i] && !d[n + i];
    }
  }

  // ----- Linearity, parity, injectivity -----

  lemma {:induction false} RunAdds(r1: Bits, r2: Bits, m1: Bits, m2: Bits, g: Bits)
    requires Generator(g) && |r1| == |r2| == |g| && |m1| == |m2|
    ensures Run(Xor(r1, r2), Xor(m1, m2), g) == Xor(Run(r1, m1, g), Run(r2, m2, g))
    decreases |m1|
  {
    if m1 != [] {
      var n := |m1| - 1;
      RunAdds(r1, r2, m1[..n], m2[..n], g);
      assert Xor(m1, m2)[..n] == Xor(m1[..n], m2[..n]);
    }
  }

  lemma {:induction false} ParityAppend(a: Bits, b: Bits)
    ensures Parity(a + b) == (Parity(a) != Parity(b))
    decreases |b|
  {
    if b == [] {
      assert a + b == a;
    } else {
      var n := |b| - 1;
      assert (a + b)[..|a + b| - 1] == a + b[..n];
      ParityAppend(a, b[..n]);
    }
  }

  lemma {:induction false} ParityAdds(a: Bits, b: Bits)
    requires |a| == |b|
    ensures Parity(Xor(a, b)) == (Parity(a) != Parity(b))
    decreases |a|
  {
    if a != [] {
      var n := |a| - 1;
      ParityAdds(a[..n], b[..n]);
      assert Xor(a, b)[..n] == Xor(a[..n], b[..n]);
    }
  }

  /** When x+1 divides the generator, the register carries the parity of everything read. */
  lemma {:induction false} RunKeepsParity(r: Bits, m: Bits, g: Bits)
    requires Generator(g) && |r| == |g| && Parity(g)
    ensures Parity(Run(r, m, g)) == (Parity(r) != Parity(m))
    decreases |m|
  {
    if m != [] {
      var n := |m| - 1;
      RunKeepsParity(r, m[..n], g);
      var s := Run(r, m[..n], g);
      assert s == [s[0]] + s[1..];
      ParityAppend([s[0]], s[1..]);
      ParityAppend(s[1..], [false]);
      assert Parity([false]) == false && Parity([s[0]]) == s[0] by {
        assert [false][..0] == [] && [s[0]][..0] == [];
      }
      ParityAdds(s[1..] + [false], g);
    }
  }

  /** Reading zeros never turns a nonzero register into zero, nor zero into nonzero. */
  lemma {:induction false} RunOverZeros(r: Bits, n: nat, g: Bits)
    requires Generator(g) && |r| == |g|
    ensures Run(r, Zeros(n), g) == Zeros(|g|) <==> r == Zeros(|g|)
    decreases n
  {
    if n > 0 {
      var s := Run(r, Zeros(n - 1), g);
      RunOverZeros(r, n - 1, g);
      assert Zeros(n)[..n - 1] == Zeros(n - 1);
      var t, w := Step(s, false, g), |g|;
      if t == Zeros(w) {
        assert !t[w - 1];
        assert !s[0];
        forall i | 0 < i < w ensures !s[i] { assert t[i - 1] == s[i]; }
        assert s == Zeros(w);
      }
    }
  }

  /** Zeros on top of the register move out without feedback. */
  lemma {:induction false} ZerosMoveUp(low: Bits, n: nat, g: Bits)
    requires Generator(g) && n + |low| == |g|
    ensures Run(Zeros(n) + low, Zeros(n), g) == low + Zeros(n)
    decreases n
  {
    if n == 0 {
      assert Zeros(0) + low == low == low + Zeros(0);
    } else {
      assert Zeros(n) == [false] + Zeros(n - 1);
      RunCons(Zeros(n) + low, false, Zeros(n - 1), g);
      var low' := low + [false];
      assert Step(Zeros(n) + low, false, g) == Zeros(n - 1) + low';
      ZerosMoveUp(low', n - 1, g);
      assert low' + Zeros(n - 1) == low + Zeros(n);
    }
  }

  // ----- Error detection -----

  /** An error pattern that leaves the register, started at zero, at zero. */
  predicate Invisible(e: Bits, g: Bits)
    requires Generator(g)
  {
    Run(Zeros(|g|), e, g) == Zeros(|g|)
  }

  /** Whatever was read and from whatever start: adding e changes the result unless e is invisible. */
  lemma ErrorSeen(init: Bits, m: Bits, e: Bits, g: Bits)
    requires Generator(g) && |init| == |g| && |m| == |e|
    ensures Run(init, Xor(m, e), g) == Run(init, m, g) <==> Invisible(e, g)
  {
    var z := Zeros(|g|);
    RunAdds(init, z, m, e, g);
    assert Xor(init, z) == init;
    var a, b := Run(init, m, g), Run(z, e, g);
    if Xor(a, b) == a {
      forall i | 0 <= i < |b| ensures b[i] == z[i] { assert Xor(a, b)[i] == a[i]; }
      assert b == z;
    }
  }

  lemma OddErrorSeen(e: Bits, g: Bits)
    requires Generator(g) && Parity(g) && Parity(e)
    ensures !Invisible(e, g)
  {
    RunKeepsParity(Zeros(|g|), e, g);
    ParityOfZeros(|g|);
  }

  lemma {:induction false} ParityOfZeros(n: nat)
    ensures !Parity(Zeros(n))
  {
    if n > 0 {
      assert Zeros(n)[..n - 1] == Zeros(n - 1);
      ParityOfZeros(n - 1);
    }
  }

  /** A register preloaded with the bits it is about to read ends at zero. */
  lemma {:induction false} ReadingOwnContents(b: Bits, n: nat, g: Bits)
    requires Generator(g) && |b| + n == |g|
    ensures Run(b + Zeros(n), b, g) == Zeros(|g|)
    decreases |b|
  {
    if b == [] {
      assert b + Zeros(n) == Zeros(|g|);
    } else {
      assert b == [b[0]] + b[1..];
      RunCons(b + Zeros(n), b[0], b[1..], g);
      assert Step(b + Zeros(n), b[0], g) == b[1..] + Zeros(n + 1);
      ReadingOwnContents(b[1..], n + 1, g);
    }
  }

  /** Reading bits is the same as adding them to the top of the register and then reading zeros. */
  lemma ReadIsLoad(r: Bits, b: Bits, n: nat, g: Bits)
    requires Generator(g) && |r| == |g| == |b| + n
    ensures Run(r, b, g) == Run(Xor(r, b + Zeros(n)), Zeros(|b|), g)
  {
    ReadingOwnContents(b, n, g);
    RunAdds(r, b + Zeros(n), b, b, g);
    assert Xor(b, b) == Zeros(|b|);
    assert Xor(Run(r, b, g), Zeros(|g|)) == Run(r, b, g);
  }

  /** The register ends at zero exactly when the last w bits it reads are the value it then holds. */
  lemma ZeroAfterOwnValue(init: Bits, m: Bits, tail: Bits, g: Bits)
    requires Generator(g) && |init| == |tail| == |g|
    ensures Run(init, m + tail, g) == Zeros(|g|) <==> Run(init, m, g) == tail
  {
    hide Run;
    var r := Run(init, m, g);
    RunAppend(init, m, tail, g);
    ReadIsLoad(r, tail, 0, g);
    assert tail + Zeros(0) == tail;
    RunOverZeros(Xor(r, tail), |g|, g);
    SelfXor(r, tail);
  }

  /** Starting from a preset register is complementing the first bits under the preset. */
  lemma PresetIsComplement(preset: Bits, m: Bits, n: nat, g: Bits)
    requires Generator(g) && |preset| == |g| && |m| == |g| + n
    ensures Run(preset, m, g) == Run(Zeros(|g|), Xor(m, preset + Zeros(n)), g)
  {
    hide Run;
    var z, mask := Zeros(|g|), preset + Zeros(n);
    var poly := Xor(m, mask);
    ReadingOwnContents(preset, 0, g);
    assert preset + Zeros(0) == preset;
    RunAppend(preset, preset, Zeros(n), g);
    RunOverZeros(z, n, g);
    RunAdds(z, preset, poly, mask, g);
    assert Xor(poly, mask) == m && Xor(z, preset) == preset;
    assert Xor(Run(z, poly, g), z) == Run(z, poly, g);
  }

  lemma WordSeen(word: Bits, g: Bits)
    requires Generator(g) && |word| == |g|
    ensures Invisible(word, g) <==> word == Zeros(|g|)
  {
    ReadIsLoad(Zeros(|g|), word, 0, g);
    assert Xor(Zeros(|g|), word + Zeros(0)) == word;
    RunOverZeros(word, |g|, g);
  }

  /** Leading and trailing zeros do not change whether a pattern is invisible. */
  lemma InvisibleCore(before: nat, core: Bits, after: nat, g: Bits)
    requires Generator(g)
    ensures Invisible(Zeros(before) + core + Zeros(after), g) <==> Invisible(core, g)
  {
    var z := Zeros(|g|);
    RunOverZeros(z, before, g);
    RunAppend(z, Zeros(before), core, g);
    RunAppend(z, Zeros(before) + core, Zeros(after), g);
    RunOverZeros(Run(z, core, g), after, g);
  }

  /** All set bits of e lie within some stretch of `span` consecutive positions. */
  ghost predicate BurstWithin(e: Bits, span: nat) {
    forall i, j :: 0 <= i <= j < |e| && e[i] && e[j] ==> j - i < span
  }

  lemma {:induction false} FirstSet(e: Bits) returns (k: nat)
    requires exists i :: 0 <= i < |e| && e[i]
    ensures k < |e| && e[k] && forall i :: 0 <= i < k ==> !e[i]
  {
    k := 0;
    while !e[k]
      invariant k < |e| && forall i :: 0 <= i < k ==> !e[i]
      decreases |e| - k
    {
      k := k + 1;
    }
  }

  /** A burst of at most `span` bits is a window of exactly `span` bits among zeros. */
  lemma BurstWindow(e: Bits, span: nat) returns (at: nat)
    requires BurstWithin(e, span) && 0 < span <= |e|
    ensures at + span <= |e|
    ensures e == Zeros(at) + e[at..at + span] + Zeros(|e| - at - span)
  {
    if exists i :: 0 <= i < |e| && e[i] {
      var k := FirstSet(e);
      at := if k + span <= |e| then k else |e| - span;
    } else {
      at := 0;
    }
  }

  /** No nonzero error burst of at most w bits is invisible, wherever it falls. */
  lemma BurstSeen(e: Bits, g: Bits)
    requires Generator(g) && |g| <= |e| && BurstWithin(e, |g|)
    ensures Invisible(e, g) <==> e == Zeros(|e|)
  {
    var w := |g|;
    var at := BurstWindow(e, w);
    var word := e[at..at + w];
    InvisibleCore(at, word, |e| - at - w, g);
    WordSeen(word, g);
    forall k | 0 <= k < |e|
      ensures e[k] == (at <= k < at + w && word[k - at])
    {
      assert e[k] == (Zeros(at) + word + Zeros(|e| - at - w))[k];
    }
    if e == Zeros(|e|) {
      forall k | 0 <= k < w ensures !word[k] { assert !e[at + k]; }
    }
  }

  lemma SelfXor(a: Bits, b: Bits)
    requires |a| == |b|
    ensures Xor(a, b) == Zeros(|a|) <==> a == b
  {
    if Xor(a, b) == Zeros(|a|) {
      forall i | 0 <= i < |a| ensures a[i] == b[i] { assert !Xor(a, b)[i]; }
    }
  }

  lemma LeadingOneSeen(rest: Bits, g: Bits)
    requires Generator(g) && |rest| == |g|
    ensures Invisible([true] + rest, g) <==> rest == g
  {
    hide Run;
    var z := Zeros(|g|);
    RunCons(z, true, rest, g);
    assert Step(z, true, g) == g;
    ReadIsLoad(g, rest, 0, g);
    assert rest + Zeros(0) == rest;
    RunOverZeros(Xor(g, rest), |g|, g);
    SelfXor(g, rest);
  }

  lemma LeadingZeroSeen(rest: Bits, g: Bits)
    requires Generator(g) && |rest| == |g|
    ensures Invisible([false] + rest, g) <==> rest == Zeros(|g|)
  {
    hide Run;
    var z := Zeros(|g|);
    RunCons(z, false, rest, g);
    assert Step(z, false, g) == z;
    WordSeen(rest, g);
  }

  /** The bound is tight: among bursts of w+1 bits exactly the generator itself goes unseen. */
  lemma LongerBurstSeen(before: nat, word: Bits, after: nat, g: Bits)
    requires Generator(g) && |word| == |g| + 1
    ensures Invisible(Zeros(before) + word + Zeros(after), g)
            <==> word == Zeros(|word|) || word == [true] + g
  {
    hide Invisible;
    InvisibleCore(before, word, after, g);
    var rest := word[1..];
    if word[0] {
      LeadingOneSeen(rest, g);
      assert word == [true] + rest;
    } else {
      LeadingZeroSeen(rest, g);
      assert word == [false] + rest;
      assert Zeros(|word|) == [false] + Zeros(|g|);
    }
  }
}
