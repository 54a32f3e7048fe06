/**
 Cache and coalescing keys (`RegKey`, `RangeKey` and the generation prefix of `handleRead`):
 decimal numbers joined by colons.
 */
module Keys {
  function DigitChar(d: nat): char
    requires d < 10
  {
    ['0', '1', '2', '3', '4', '5', '6', '7', '8', '9'][d]
  }

  /** `%d` of a natural number. */
  function Decimal(n: nat): string {
    if n < 10 then [DigitChar(n)] else Decimal(n / 10) + [DigitChar(n % 10)]
  }

  /** The numbers in decimal with a colon after each but the last. */
  function Join(ns: seq<nat>): string {
    if |ns| == 0 then "" else if |ns| == 1 then Decimal(ns[0]) else Decimal(ns[0]) + ":" + Join(ns[1..])
  }

  function RegKey(slave: nat, fc: nat, addr: nat): string { Join([slave, fc, addr]) }

  /** The key under which a read taken at write generation `gen` is coalesced. */
  function RangeKey(gen: nat, slave: nat, fc: nat, addr: nat, qty: nat): string { Join([gen, slave, fc, addr, qty]) }

  lemma {:induction false} DecimalInjective(m: nat, n: nat)
    requires Decimal(m) == Decimal(n)
    ensures m == n
  {
    var s, t := Decimal(m), Decimal(n);
    assert s[|s| - 1] == DigitChar(m % 10) && t[|t| - 1] == DigitChar(n % 10);
    if m >= 10 && n >= 10 {
      assert s[..|s| - 1] == Decimal(m / 10) && t[..|t| - 1] == Decimal(n / 10);
      DecimalInjective(m / 10, n / 10);
    } else {
      DecimalNonempty(m / 10);
      DecimalNonempty(n / 10);
    }
  }

  lemma {:induction false} DecimalNonempty(n: nat)
    ensures |Decimal(n)| > 0 && ':' !in Decimal(n)
  {
    if n >= 10 { DecimalNonempty(n / 10); }
  }

  /** Two colon-free words followed by a colon are told apart by the first colon. */
  lemma FirstColon(a: string, b: string, x: string, y: string)
    requires ':' !in a && ':' !in b && a + ":" + x == b + ":" + y
    ensures a == b && x == y
  {
    var l, r := a + ":" + x, b + ":" + y;
    assert l[|a|] == ':' && r[|b|] == ':';
    assert (forall i :: 0 <= i < |b| ==> r[i] == b[i]) && (forall i :: 0 <= i < |a| ==> l[i] == a[i]);
    assert |a| == |b|;
    assert l[..|a|] == a && r[..|b|] == b;
    assert l[|a| + 1..] == x && r[|b| + 1..] == y;
  }

  /** Joined lists of equal length are equal only if the lists are. */
  lemma {:induction false} JoinInjective(ms: seq<nat>, ns: seq<nat>)
    requires |ms| == |ns| && Join(ms) == Join(ns)
    ensures ms == ns
  {
    if |ms| == 1 {
      DecimalInjective(ms[0], ns[0]);
    } else if |ms| > 1 {
      DecimalNonempty(ms[0]);
      DecimalNonempty(ns[0]);
      FirstColon(Decimal(ms[0]), Decimal(ns[0]), Join(ms[1..]), Join(ns[1..]));
      DecimalInjective(ms[0], ns[0]);
      JoinInjective(ms[1..], ns[1..]);
      assert ms == [ms[0]] + ms[1..] && ns == [ns[0]] + ns[1..];
    }
  }

  /** A register key names one slave, function code and address. */
  lemma RegKeyInjective(s: nat, f: nat, a: nat, s': nat, f': nat, a': nat)
    requires RegKey(s, f, a) == RegKey(s', f', a')
    ensures s == s' && f == f' && a == a'
  {
    JoinInjective([s, f, a], [s', f', a']);
    assert [s, f, a] == [s', f', a'];
    assert [s, f, a][0] == [s', f', a'][0] && [s, f, a][1] == [s', f', a'][1] && [s, f, a][2] == [s', f', a'][2];
  }

  /** A coalescing key names one write generation and one request range. */
  lemma RangeKeyInjective(g: nat, s: nat, f: nat, a: nat, q: nat, g': nat, s': nat, f': nat, a': nat, q': nat)
    requires RangeKey(g, s, f, a, q) == RangeKey(g', s', f', a', q')
    ensures g == g' && s == s' && f == f' && a == a' && q == q'
  {
    var m, n := [g, s, f, a, q], [g', s', f', a', q'];
    JoinInjective(m, n);
    assert m == n;
    assert m[0] == n[0] && m[1] == n[1] && m[2] == n[2] && m[3] == n[3] && m[4] == n[4];
  }
}
