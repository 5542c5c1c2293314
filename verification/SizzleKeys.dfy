// The strings by which Sizzle tells the marks of one select run from those of another.
module SizzleKeys {
  import Decimal

  // doneName + "." + dirruns
  function DirKey(name: nat, run: nat): string {
    Decimal.ToString(name) + "." + Decimal.ToString(run)
  }

  // dirkey + "." + cachedruns
  function CachedKey(name: nat, run: nat, candidate: nat): string {
    DirKey(name, run) + "." + Decimal.ToString(candidate)
  }

  // What stands before the first dot is determined by the text.
  lemma FirstDot(a: string, x: string, b: string, y: string)
    requires Decimal.AllDigits(a) && Decimal.AllDigits(b)
    requires a + "." + x <= b + "." + y
    ensures a == b && x <= y
  {
    var s, t := a + "." + x, b + "." + y;
    assert forall i :: 0 <= i < |s| ==> s[i] == t[i];
    assert s[|a|] == '.';
    assert t[|b|] == '.';
    assert forall i :: 0 <= i < |a| ==> a[i] == s[i] == t[i] == b[i];
    assert forall i :: 0 <= i < |x| ==> x[i] == s[|a| + 1 + i] == t[|b| + 1 + i] == y[i];
  }

  lemma CachedKeyInjective(n: nat, d: nat, c: nat, n': nat, d': nat, c': nat)
    requires CachedKey(n, d, c) == CachedKey(n', d', c')
    ensures n == n' && d == d' && c == c'
  {
    var N, D, C := Decimal.ToString(n), Decimal.ToString(d), Decimal.ToString(c);
    var N', D', C' := Decimal.ToString(n'), Decimal.ToString(d'), Decimal.ToString(c');
    assert CachedKey(n, d, c) == N + "." + (D + "." + C);
    assert CachedKey(n', d', c') == N' + "." + (D' + "." + C');
    FirstDot(N, D + "." + C, N', D' + "." + C');
    FirstDot(N', D' + "." + C', N, D + "." + C);
    FirstDot(D, C, D', C');
    FirstDot(D', C', D, C);
    Decimal.ToStringInjective(n, n');
    Decimal.ToStringInjective(d, d');
    Decimal.ToStringInjective(c, c');
  }

  // The prefix test `cache.indexOf(dirkey) === 0` recognises exactly the marks of the
  // current run, as long as no mark of the same combinator carries a later run number.
  lemma PrefixTestExact(n: nat, d: nat, n': nat, d': nat, c': nat)
    requires n' == n ==> d' <= d
    ensures DirKey(n, d) <= CachedKey(n', d', c') <==> n' == n && d' == d
  {
    var N, D := Decimal.ToString(n), Decimal.ToString(d);
    var N', D', C' := Decimal.ToString(n'), Decimal.ToString(d'), Decimal.ToString(c');
    assert CachedKey(n', d', c') == N' + "." + (D' + "." + C');
    if DirKey(n, d) <= CachedKey(n', d', c') {
      FirstDot(N, D, N', D' + "." + C');
      Decimal.ToStringInjective(n, n');
      Decimal.ToStringLength(d', d);
      var rest := D' + "." + C';
      assert forall i :: 0 <= i < |D| ==> D[i] == rest[i];
      assert rest[|D'|] == '.';
      assert D == D';
      Decimal.ToStringInjective(d, d');
    }
  }

  // Without that bound the test is wrong: run 1 would accept a mark of run 10.
  lemma PrefixTestNeedsOrder(n: nat, c: nat)
    ensures DirKey(n, 1) <= CachedKey(n, 10, c)
  {
    assert Decimal.ToString(10) == Decimal.ToString(1) + Decimal.ToString(0);
    var N := Decimal.ToString(n);
    assert CachedKey(n, 10, c) == N + "." + Decimal.ToString(1) + (Decimal.ToString(0) + "." + Decimal.ToString(c));
  }
}
