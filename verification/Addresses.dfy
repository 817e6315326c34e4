/** IPv4 addresses as numbers and as dotted text, and prefixes as intervals of numbers. */
module Addresses {
  import opened Text

  const SPACE: int := 0x1_0000_0000

  function Pow2(n: nat): (p: nat)
    ensures p >= 1
  {
    if n == 0 then 1 else 2 * Pow2(n - 1)
  }

  function Octets(a: nat): (nat, nat, nat, nat) {
    (a / 0x100_0000, a / 0x1_0000 % 0x100, a / 0x100 % 0x100, a % 0x100)
  }

  function Joined(a: nat, b: nat, c: nat, d: nat): string {
    Decimal(a) + "." + (Decimal(b) + "." + (Decimal(c) + "." + Decimal(d)))
  }

  /** netip.Addr.String for an IPv4 address. */
  function Dotted(a: nat): string {
    var o := Octets(a);
    Joined(o.0, o.1, o.2, o.3)
  }

  lemma FieldSplit(a: nat, x: string, b: nat, y: string)
    requires Decimal(a) + "." + x == Decimal(b) + "." + y
    ensures a == b && x == y
  {
    var s := Decimal(a) + "." + x;
    DecimalFree(a, '.');
    DecimalFree(b, '.');
    assert s == (Decimal(a) + ['.']) + x && s == (Decimal(b) + ['.']) + y;
    TerminatedFieldUnique(Decimal(a), Decimal(b), '.', s);
    DecimalInjective(a, b);
    assert s[|Decimal(a)| + 1..] == x && s[|Decimal(b)| + 1..] == y;
  }

  lemma JoinedInjective(a: nat, b: nat, c: nat, d: nat, a': nat, b': nat, c': nat, d': nat)
    requires Joined(a, b, c, d) == Joined(a', b', c', d')
    ensures a == a' && b == b' && c == c' && d == d'
  {
    var x, x' := Decimal(c) + "." + Decimal(d), Decimal(c') + "." + Decimal(d');
    FieldSplit(a, Decimal(b) + "." + x, a', Decimal(b') + "." + x');
    FieldSplit(b, x, b', x');
    FieldSplit(c, Decimal(d), c', Decimal(d'));
    DecimalInjective(d, d');
  }

  lemma FromOctets(a: nat)
    ensures var o := Octets(a); a == 0x100_0000 * o.0 + 0x1_0000 * o.1 + 0x100 * o.2 + o.3
  {
    assert a / 0x100 / 0x100 == a / 0x1_0000;
    assert a / 0x1_0000 / 0x100 == a / 0x100_0000;
  }

  /** Different addresses have different texts. */
  lemma DottedInjective(a: nat, b: nat)
    requires Dotted(a) == Dotted(b)
    ensures a == b
  {
    var o, p := Octets(a), Octets(b);
    JoinedInjective(o.0, o.1, o.2, o.3, p.0, p.1, p.2, p.3);
    FromOctets(a);
    FromOctets(b);
  }

  // ---- What the text means ----

  /** Four fields, separated by dots, the first one for the highest byte. */
  predicate FourFields(s: string, a: nat, o0: nat, o1: nat, o2: nat, o3: nat) {
    && o0 < 256 && o1 < 256 && o2 < 256 && o3 < 256
    && a == 0x100_0000 * o0 + 0x1_0000 * o1 + 0x100 * o2 + o3
    && s == Decimal(o0) + "." + Decimal(o1) + "." + Decimal(o2) + "." + Decimal(o3)
  }

  /** `s` is the dotted text of the number `a`. */
  ghost predicate Writes(s: string, a: nat) {
    exists o0: nat, o1: nat, o2: nat, o3: nat :: FourFields(s, a, o0, o1, o2, o3)
  }

  lemma JoinedFields(a: nat, b: nat, c: nat, d: nat)
    ensures Joined(a, b, c, d) == Decimal(a) + "." + Decimal(b) + "." + Decimal(c) + "." + Decimal(d)
  {
    var x, y, z, w := Decimal(a), Decimal(b), Decimal(c), Decimal(d);
    assert z + "." + w == z + ("." + w);
    assert x + "." + (y + "." + (z + "." + w)) == x + "." + y + "." + z + "." + w;
  }

  /** Every address is written as its dotted text. */
  lemma DottedWrites(a: nat)
    requires a < SPACE
    ensures Writes(Dotted(a), a)
  {
    var o := Octets(a);
    FromOctets(a);
    JoinedFields(o.0, o.1, o.2, o.3);
    assert FourFields(Dotted(a), a, o.0, o.1, o.2, o.3);
  }

  /** A text is read back as one number only. */
  lemma ReadBack(s: string, a: nat, b: nat)
    requires Writes(s, a) && Writes(s, b)
    ensures a == b
  {
    var o0: nat, o1: nat, o2: nat, o3: nat :| FourFields(s, a, o0, o1, o2, o3);
    var p0: nat, p1: nat, p2: nat, p3: nat :| FourFields(s, b, p0, p1, p2, p3);
    JoinedFields(o0, o1, o2, o3);
    JoinedFields(p0, p1, p2, p3);
    JoinedInjective(o0, o1, o2, o3, p0, p1, p2, p3);
  }

  /** The dotted text is the only one. */
  lemma WritesMeaning(s: string, a: nat)
    requires a < SPACE
    ensures Writes(s, a) <==> s == Dotted(a)
  {
    DottedWrites(a);
    if Writes(s, a) {
      var o0: nat, o1: nat, o2: nat, o3: nat :| FourFields(s, a, o0, o1, o2, o3);
      FieldsAreOctets(a, o0, o1, o2, o3);
      JoinedFields(o0, o1, o2, o3);
    }
  }

  lemma FieldsAreOctets(a: nat, o0: nat, o1: nat, o2: nat, o3: nat)
    requires o0 < 256 && o1 < 256 && o2 < 256 && o3 < 256 && a == 0x100_0000 * o0 + 0x1_0000 * o1 + 0x100 * o2 + o3
    ensures Octets(a) == (o0, o1, o2, o3)
  {
    var high := 0x1_0000 * o0 + 0x100 * o1 + o2;
    DivideOff(a, high, o3);
    DivideOff(high, 0x100 * o0 + o1, o2);
    DivideOff(0x100 * o0 + o1, o0, o1);
    DivideTwice(a);
  }

  lemma DivideOff(a: nat, high: nat, low: nat)
    requires low < 0x100 && a == 0x100 * high + low
    ensures a / 0x100 == high && a % 0x100 == low
  {
  }

  lemma DivideTwice(a: nat)
    ensures a / 0x1_0000 == a / 0x100 / 0x100 && a / 0x100_0000 == a / 0x100 / 0x100 / 0x100
  {
  }

  // ---- Multiples ----

  lemma {:induction false} MulGrows(d: nat, n: nat)
    ensures d >= 1 ==> d * n >= n
  {
    if d > 1 {
      MulGrows(d - 1, n);
      assert d * n == (d - 1) * n + n;
    }
  }

  lemma MulSmall(d: int, n: int)
    requires n >= 1 && -n < d * n < n
    ensures d == 0
  {
    if d >= 0 {
      MulGrows(d, n);
    } else {
      assert (-d) * n == -(d * n);
      MulGrows(-d, n);
    }
  }

  /** The multiple of n at or below a. */
  function Floor(a: nat, n: nat): (base: nat)
    requires n >= 1
    ensures base <= a < base + n
  {
    a - a % n
  }

  lemma FloorMultiple(a: nat, n: nat)
    requires n >= 1
    ensures Floor(a, n) == (a / n) * n
  {
  }

  /** A multiple of n is the floor of exactly the n numbers from it on. */
  lemma FloorUnique(k: int, n: nat, a: nat)
    requires n >= 1 && k * n <= a < k * n + n
    ensures Floor(a, n) == k * n
  {
    FloorMultiple(a, n);
    var q := a / n;
    assert q * n - k * n == (q - k) * n;
    MulSmall(q - k, n);
  }

  lemma MultiplesApart(k: int, l: int, n: nat)
    requires n >= 1 && k < l
    ensures k * n + n <= l * n
  {
    MulGrows(l - k, n);
    assert (l - k) * n == l * n - k * n;
  }

  lemma {:induction false} Pow2Sum(m: nat, n: nat)
    ensures Pow2(m + n) == Pow2(m) * Pow2(n)
  {
    if m > 0 {
      Pow2Sum(m - 1, n);
      assert Pow2(m + n) == 2 * Pow2(m - 1 + n);
      assert 2 * (Pow2(m - 1) * Pow2(n)) == (2 * Pow2(m - 1)) * Pow2(n);
    }
  }

  lemma Pow2Space()
    ensures Pow2(32) == SPACE
  {
    assert Pow2(8) == 0x100;
    Pow2Sum(8, 8);
    Pow2Sum(16, 16);
  }

  // ---- Networks ----

  /** An IPv4 network: an address and a prefix length. */
  datatype Prefix = Prefix(address: nat, bits: nat)

  predicate IsPrefix(p: Prefix) {
    p.address < SPACE && p.bits <= 32
  }

  function Size(p: Prefix): (n: nat)
    requires IsPrefix(p)
    ensures n >= 1
  {
    Pow2(32 - p.bits)
  }

  /** A network of one more bit is half as large; one of 32 bits holds a single address. */
  lemma SizeHalves(a: nat, bits: nat)
    requires a < SPACE && bits <= 32
    ensures Size(Prefix(a, 32)) == 1
    ensures bits < 32 ==> Size(Prefix(a, bits)) == 2 * Size(Prefix(a, bits + 1))
  {
  }

  /** netip.Prefix.Masked: the first address of the network. */
  function Base(p: Prefix): nat
    requires IsPrefix(p)
  {
    Floor(p.address, Size(p))
  }

  /** netip.Prefix.Contains: the address agrees with the prefix in its leading bits. */
  predicate Contains(p: Prefix, a: nat)
    requires IsPrefix(p)
  {
    a < SPACE && Floor(a, Size(p)) == Floor(p.address, Size(p))
  }

  /** The last network of a size ends at the end of the address space. */
  lemma BaseFits(p: Prefix)
    requires IsPrefix(p)
    ensures Base(p) + Size(p) <= SPACE
  {
    var n, k := Size(p), Pow2(p.bits);
    Pow2Space();
    Pow2Sum(p.bits, 32 - p.bits);
    FloorMultiple(p.address, n);
    var q := p.address / n;
    if q >= k {
      if q > k {
        MultiplesApart(k, q, n);
      }
    } else {
      MultiplesApart(q, k, n);
    }
  }

  /** The base is a multiple of the size, and holds the address. */
  lemma BaseMeaning(p: Prefix)
    requires IsPrefix(p)
    ensures Base(p) % Size(p) == 0 && Base(p) <= p.address < Base(p) + Size(p)
  {
    FloorMultiple(p.address, Size(p));
    MultipleRemainder(p.address / Size(p), Size(p));
  }

  lemma MultipleRemainder(k: nat, n: nat)
    requires n >= 1
    ensures (k * n) % n == 0
  {
    FloorUnique(k, n, k * n);
  }

  /** A network is the interval of Size addresses from its base on. */
  lemma ContainsInterval(p: Prefix, a: nat)
    requires IsPrefix(p)
    ensures Base(p) + Size(p) <= SPACE
    ensures Contains(p, a) <==> Base(p) <= a < Base(p) + Size(p)
  {
    BaseFits(p);
    var n := Size(p);
    FloorMultiple(p.address, n);
    if Base(p) <= a < Base(p) + n {
      FloorUnique(p.address / n, n, a);
    }
  }
}
