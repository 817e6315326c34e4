/** String vocabulary of the code: prefixes, suffixes, short names and the decimal
    rendering that `fmt.Sprintf("%d", n)` produces for non-negative numbers. */
module Text {

  datatype Option<+T> = None | Some(value: T)

  predicate HasPrefix(s: string, prefix: string) {
    prefix <= s
  }

  predicate HasSuffix(s: string, suffix: string) {
    |suffix| <= |s| && s[|s| - |suffix|..] == suffix
  }

  const DIGITS: string := "0123456789"

  predicate IsDigit(c: char) {
    '0' <= c <= '9'
  }

  function Decimal(n: nat): (s: string)
    ensures |s| > 0
    ensures forall i :: 0 <= i < |s| ==> IsDigit(s[i])
  {
    if n < 10 then [DIGITS[n]] else Decimal(n / 10) + [DIGITS[n % 10]]
  }

  /** The number a digit string denotes; the inverse of Decimal. */
  function DecimalValue(s: string): nat
    requires forall i :: 0 <= i < |s| ==> IsDigit(s[i])
  {
    if s == [] then 0
    else
      assert IsDigit(s[|s| - 1]);
      10 * DecimalValue(s[..|s| - 1]) + (s[|s| - 1] as int - '0' as int)
  }

  lemma {:induction false} DecimalRoundTrip(n: nat)
    ensures DecimalValue(Decimal(n)) == n
  {
    var s := Decimal(n);
    if n < 10 {
      assert s[..0] == [];
    } else {
      assert s[..|s| - 1] == Decimal(n / 10);
      DecimalRoundTrip(n / 10);
    }
  }

  lemma DecimalInjective(m: nat, n: nat)
    requires Decimal(m) == Decimal(n)
    ensures m == n
  {
    DecimalRoundTrip(m);
    DecimalRoundTrip(n);
  }

  /** The digits are decimal ones, the most significant first. */
  lemma DecimalDigits(n: nat, d: nat)
    requires d < 10
    ensures Decimal(d) == [('0' as int + d) as char]
    ensures n > 0 ==> Decimal(10 * n + d) == Decimal(n) + Decimal(d)
  {
    assert (10 * n + d) / 10 == n && (10 * n + d) % 10 == d;
  }

  /** Positive numbers are rendered without a leading zero. */
  lemma {:induction false} DecimalLeadingDigit(n: nat)
    requires n > 0
    ensures '1' <= Decimal(n)[0] <= '9'
    ensures Decimal(n)[0] as int - '0' as int <= n
    ensures n < 10 ==> Decimal(n) == [DIGITS[n]]
  {
    if n >= 10 {
      DecimalLeadingDigit(n / 10);
    }
  }

  /** Fields that do not contain their terminator are prefix-free: a text opens
      with at most one of them. */
  lemma TerminatedFieldUnique(x: string, y: string, c: char, s: string)
    requires c !in x && c !in y
    requires HasPrefix(s, x + [c]) && HasPrefix(s, y + [c])
    ensures x == y
  {
    assert s[|x|] == (x + [c])[|x|] == c;
    assert s[|y|] == (y + [c])[|y|] == c;
    assert x == s[..|x|] && y == s[..|y|];
  }

  lemma DecimalFree(n: nat, c: char)
    requires !IsDigit(c)
    ensures c !in Decimal(n)
  {
  }

  /** The pattern ^[a-z0-9][a-z0-9-]{0,31}$. */
  predicate ShortName(s: string) {
    && 1 <= |s| <= 32 && s[0] != '-'
    && forall i :: 0 <= i < |s| ==> 'a' <= s[i] <= 'z' || IsDigit(s[i]) || s[i] == '-'
  }

  predicate Distinct<T(==)>(s: seq<T>) {
    forall i, j :: 0 <= i < j < |s| ==> s[i] != s[j]
  }

  predicate Apart(a: seq<string>, b: seq<string>) {
    forall x :: x in a ==> x !in b
  }

  lemma DistinctAppend(a: seq<string>, b: seq<string>)
    requires Distinct(a) && Distinct(b) && Apart(a, b)
    ensures Distinct(a + b)
  {
    var all := a + b;
    forall i, j | 0 <= i < j < |all| ensures all[i] != all[j] {
      if i < |a| <= j {
        assert a[i] in a && b[j - |a|] in b;
      }
    }
  }

  /** A set of elements of a sequence is no larger than the sequence. */
  lemma {:induction false} ElementsBound<T>(s: seq<T>, elements: set<T>)
    requires forall x :: x in elements ==> x in s
    ensures |elements| <= |s|
  {
    if s != [] {
      var last := s[|s| - 1];
      var rest := s[..|s| - 1];
      forall x | x in elements - {last} ensures x in rest {
        var i :| 0 <= i < |s| && s[i] == x;
        assert rest[i] == x;
      }
      ElementsBound(rest, elements - {last});
      assert elements <= (elements - {last}) + {last};
    } else {
      assert elements == {};
    }
  }

  /** What holds at first and is kept by every step holds throughout. */
  lemma {:induction false} InvariantHolds<S(!new), E(!new)>(states: seq<S>, events: seq<E>, property: S -> bool, step: (S, S, E) -> bool, k: nat)
    requires |states| == |events| + 1 && k <= |events|
    requires property(states[0])
    requires forall j :: 0 <= j < |events| ==> step(states[j], states[j + 1], events[j])
    requires forall s, s', e :: property(s) && step(s, s', e) ==> property(s')
    ensures property(states[k])
  {
    if k > 0 {
      InvariantHolds(states, events, property, step, k - 1);
      assert step(states[k - 1], states[k - 1 + 1], events[k - 1]);
    }
  }

  /** A trace can be continued by a step from its last state. */
  lemma StepsExtend<S(!new), E(!new)>(states: seq<S>, events: seq<E>, step: (S, S, E) -> bool, s': S, e: E)
    requires |states| == |events| + 1
    requires forall j :: 0 <= j < |events| ==> step(states[j], states[j + 1], events[j])
    requires step(states[|events|], s', e)
    ensures var longer, more := states + [s'], events + [e];
      forall j :: 0 <= j < |more| ==> step(longer[j], longer[j + 1], more[j])
  {
    var longer, more := states + [s'], events + [e];
    forall j | 0 <= j < |more| ensures step(longer[j], longer[j + 1], more[j]) {
      assert j < |events| ==> longer[j] == states[j] && longer[j + 1] == states[j + 1] && more[j] == events[j];
    }
  }
}
