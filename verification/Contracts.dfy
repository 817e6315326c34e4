/** Artifact contracts, and the keys that the code joins from two names with a NUL between them. */
module Contracts {

  datatype Contract = Contract(artifactType: string, version: string)

  const NUL: char := '\0'

  function Key(a: string, b: string): string {
    a + [NUL] + b
  }

  function ContractKey(c: Contract): string {
    Key(c.artifactType, c.version)
  }

  /** The key of two names without a NUL is the key of no other two names. */
  lemma KeyInjective(a: string, b: string, c: string, d: string)
    requires NUL !in a && NUL !in b && Key(a, b) == Key(c, d)
    ensures a == c && b == d
  {
    var s, n := Key(a, b), |a|;
    assert s[n] == NUL && s[|c|] == NUL;
    assert forall i :: 0 <= i < n ==> s[i] == a[i];
    assert forall i :: n < i < |s| ==> s[i] == b[i - n - 1];
    assert |c| == n;
    assert s[..n] == a && s[..n] == c;
    assert s[n + 1..] == b && s[n + 1..] == d;
  }

  /** When only the second names are known to hold no NUL, the last NUL still separates. */
  lemma LastNulSeparates(a: string, b: string, c: string, d: string)
    requires NUL !in b && NUL !in d && Key(a, b) == Key(c, d)
    ensures a == c && b == d
  {
    var s, n := Key(a, b), |a|;
    assert s[n] == NUL && s[|c|] == NUL;
    assert forall i :: n < i < |s| ==> s[i] == b[i - n - 1];
    assert forall i :: |c| < i < |s| ==> s[i] == d[i - |c| - 1];
    assert |c| == n;
    assert s[..n] == a && s[..n] == c;
    assert s[n + 1..] == b && s[n + 1..] == d;
  }
}
