/** Position tokens of resolved pipeline stages and their shifting when cleanup stages are
    put in front: shiftPipelineTokens in internal/api/clusters.go. */
module Tokens {
  import opened Text

  // ---- Text ----

  /** bytes.ReplaceAll for a non-empty `from`: leftmost matches, not rescanned. */
  function ReplaceAll(s: string, from: string, to: string): string
    requires from != []
  {
    if s == [] then []
    else if HasPrefix(s, from) then to + ReplaceAll(s[|from|..], from, to)
    else [s[0]] + ReplaceAll(s[1..], from, to)
  }

  const NAME: string := "art_pipeline_"

  /** The part of a token that names the stage position. */
  function Head(p: nat): string {
    NAME + Decimal(p) + "_"
  }

  function Token(p: nat, k: nat): string {
    Head(p) + Decimal(k)
  }

  /** A token is the name, the position and the binding. */
  lemma TokenText(p: nat, k: nat)
    ensures Token(p, k) == "art_pipeline_" + Decimal(p) + "_" + Decimal(k)
    ensures Token(3, 12) == "art_pipeline_3_12"
  {
    assert Decimal(3) == "3" && Decimal(12) == "12";
  }

  /** The text after replacing the tokens 1 to n of position p, one after the other. */
  function Shifted(s: string, p: nat, q: nat, n: nat): string {
    if n == 0 then s else ReplaceAll(Shifted(s, p, q, n - 1), Token(p, n), Token(q, n))
  }

  /** `s` opens with a head of position p and a leading digit from 1 to m. */
  predicate Opens(s: string, p: nat, m: nat) {
    m <= 9 && HasPrefix(s, Head(p)) && |Head(p)| < |s| && '1' <= s[|Head(p)|] <= DIGITS[m]
  }

  /** One pass over the text that renames every head of position p before a leading digit
      from 1 to m, and copies everything else. */
  function Renamed(s: string, p: nat, q: nat, m: nat): string {
    if s == [] then []
    else if Opens(s, p, m) then Head(q) + Renamed(s[|Head(p)|..], p, q, m)
    else [s[0]] + Renamed(s[1..], p, q, m)
  }

  // ---- Heads do not overlap ----

  /** The letter that opens a head occurs nowhere else in it. */
  lemma HeadShape(p: nat)
    ensures |Head(p)| >= 2 && Head(p)[0] == 'a'
    ensures 'a' !in Head(p)[1..]
  {
    DecimalFree(p, 'a');
    assert Head(p)[1..] == NAME[1..] + Decimal(p) + "_";
  }

  lemma TokenShape(p: nat, k: nat)
    ensures |Token(p, k)| >= 2 && Token(p, k)[0] == 'a'
    ensures 'a' !in Token(p, k)[1..]
  {
    HeadShape(p);
    DecimalFree(k, 'a');
    assert Token(p, k)[1..] == Head(p)[1..] + Decimal(k);
  }

  lemma HeadUnique(s: string, p: nat, q: nat)
    requires HasPrefix(s, Head(p)) && HasPrefix(s, Head(q))
    ensures p == q
  {
    var rest, n := s[|NAME|..], |NAME|;
    assert Head(p)[n..] == Decimal(p) + ['_'] && Head(q)[n..] == Decimal(q) + ['_'];
    assert HasPrefix(rest, Decimal(p) + ['_']) && HasPrefix(rest, Decimal(q) + ['_']);
    DecimalFree(p, '_');
    DecimalFree(q, '_');
    TerminatedFieldUnique(Decimal(p), Decimal(q), '_', rest);
    DecimalInjective(p, q);
  }

  /** Text without the opening letter is copied. */
  lemma {:induction false} RenamedCopies(u: string, x: string, p: nat, q: nat, m: nat)
    requires 'a' !in u
    ensures Renamed(u + x, p, q, m) == u + Renamed(x, p, q, m)
    decreases |u|
  {
    if u == [] {
      assert u + x == x;
    } else {
      HeadShape(p);
      assert (u + x)[0] == u[0] && (u + x)[1..] == u[1..] + x;
      RenamedCopies(u[1..], x, p, q, m);
      assert !Opens(u + x, p, m);
    }
  }

  lemma {:induction false} ReplaceCopies(u: string, x: string, from: string, to: string)
    requires from != [] && from[0] == 'a' && 'a' !in u
    ensures ReplaceAll(u + x, from, to) == u + ReplaceAll(x, from, to)
    decreases |u|
  {
    if u == [] {
      assert u + x == x;
    } else {
      assert (u + x)[0] == u[0] && (u + x)[1..] == u[1..] + x;
      ReplaceCopies(u[1..], x, from, to);
    }
  }

  lemma PrefixCons(s: string, u: string)
    requires s != [] && u != []
    ensures HasPrefix(s, u) <==> s[0] == u[0] && HasPrefix(s[1..], u[1..])
  {
    if s[0] == u[0] && HasPrefix(s[1..], u[1..]) {
      assert s == [s[0]] + s[1..] && u == [u[0]] + u[1..];
    }
  }

  /** Renaming neither adds nor removes a prefix without the opening letter. */
  lemma {:induction false} RenamedPrefix(u: string, s: string, p: nat, q: nat, m: nat)
    requires 'a' !in u
    ensures HasPrefix(Renamed(s, p, q, m), u) <==> HasPrefix(s, u)
    decreases |u|
  {
    if u != [] && s != [] {
      HeadShape(p);
      HeadShape(q);
      PrefixCons(s, u);
      PrefixCons(Renamed(s, p, q, m), u);
      if !Opens(s, p, m) {
        RenamedPrefix(u[1..], s[1..], p, q, m);
      }
    }
  }

  lemma {:induction false} RenamedNothing(s: string, p: nat, q: nat)
    ensures Renamed(s, p, q, 0) == s
  {
    if s != [] {
      RenamedNothing(s[1..], p, q);
    }
  }

  // ---- Sequential replacement is one renaming ----

  function Digits(n: nat): nat {
    if n < 9 then n else 9
  }

  /** A token of position p opens with a leading digit within its number. */
  lemma TokenOpens(s: string, p: nat, k: nat, m: nat)
    requires 1 <= k && HasPrefix(s, Token(p, k)) && Digits(k) <= m <= 9
    ensures Opens(s, p, m)
  {
    DecimalLeadingDigit(k);
    var h := Head(p);
    assert s[|h|] == Token(p, k)[|h|] == Decimal(k)[0];
    assert Token(p, k)[..|h|] == h;
  }

  lemma ReplaceAtRenamed(s: string, p: nat, q: nat, k: nat)
    requires p != q && k >= 1 && s != [] && !Opens(s, p, Digits(k))
    ensures ReplaceAll(Renamed(s, p, q, Digits(k - 1)), Token(p, k), Token(q, k))
            == [s[0]] + ReplaceAll(Renamed(s[1..], p, q, Digits(k - 1)), Token(p, k), Token(q, k))
  {
    var t, m := Token(p, k), Digits(k - 1);
    TokenShape(p, k);
    assert !Opens(s, p, m);
    var r := Renamed(s, p, q, m);
    assert r == [s[0]] + Renamed(s[1..], p, q, m) && r[1..] == Renamed(s[1..], p, q, m);
    if HasPrefix(r, t) {
      PrefixCons(r, t);
      RenamedPrefix(t[1..], s[1..], p, q, m);
      PrefixCons(s, t);
      TokenOpens(s, p, k, Digits(k));
    }
  }

  lemma OtherHead(r: string, p: nat, q: nat, k: nat)
    requires p != q
    ensures !HasPrefix(Head(q) + r, Token(p, k))
  {
    var s := Head(q) + r;
    if HasPrefix(s, Token(p, k)) {
      assert HasPrefix(s, Head(p)) && HasPrefix(s, Head(q));
      HeadUnique(s, p, q);
    }
  }

  /** A head that was renamed before is passed over. */
  lemma ReplacePassesHead(r: string, p: nat, q: nat, k: nat)
    requires p != q
    ensures ReplaceAll(Head(q) + r, Token(p, k), Token(q, k)) == Head(q) + ReplaceAll(r, Token(p, k), Token(q, k))
  {
    var t, h := Token(p, k), Head(q);
    var s := h + r;
    TokenShape(p, k);
    HeadShape(q);
    OtherHead(r, p, q, k);
    assert s[0] == h[0] && s[1..] == h[1..] + r;
    ReplaceCopies(h[1..], r, t, Token(q, k));
    assert [h[0]] + (h[1..] + ReplaceAll(r, t, Token(q, k))) == h + ReplaceAll(r, t, Token(q, k));
  }

  /** A text that opens with digit k, but not with a smaller one, opens with token k. */
  lemma OpensToken(s: string, p: nat, k: nat)
    requires 1 <= k <= 9 && Opens(s, p, k) && !Opens(s, p, k - 1)
    ensures Token(p, k) == Head(p) + [DIGITS[k]] && HasPrefix(s, Token(p, k))
  {
    DecimalLeadingDigit(k);
    var h := Head(p);
    assert s[..|h| + 1] == h + [s[|h|]];
  }

  lemma RenamedPassesToken(rest: string, p: nat, q: nat, k: nat)
    requires 1 <= k <= 9 && !Opens(Token(p, k) + rest, p, k - 1)
    ensures Renamed(Token(p, k) + rest, p, q, k - 1) == Token(p, k) + Renamed(rest, p, q, k - 1)
  {
    var t := Token(p, k);
    TokenShape(p, k);
    assert (t + rest)[1..] == t[1..] + rest;
    RenamedCopies(t[1..], rest, p, q, k - 1);
    assert [t[0]] + (t[1..] + Renamed(rest, p, q, k - 1)) == t + Renamed(rest, p, q, k - 1);
  }

  lemma RenamedHitsToken(rest: string, p: nat, q: nat, k: nat)
    requires 1 <= k <= 9 && Opens(Token(p, k) + rest, p, k)
    ensures Renamed(Token(p, k) + rest, p, q, k) == Token(q, k) + Renamed(rest, p, q, k)
  {
    var d := Decimal(k);
    assert (Token(p, k) + rest)[|Head(p)|..] == d + rest;
    DecimalFree(k, 'a');
    RenamedCopies(d, rest, p, q, k);
    assert Head(q) + (d + Renamed(rest, p, q, k)) == Token(q, k) + Renamed(rest, p, q, k);
  }

  /** Token k itself is replaced in step k. */
  lemma ShiftHit(s: string, rest: string, p: nat, q: nat, k: nat)
    requires p != q && 1 <= k <= 9 && s == Token(p, k) + rest && Opens(s, p, k) && !Opens(s, p, k - 1)
    requires ReplaceAll(Renamed(rest, p, q, k - 1), Token(p, k), Token(q, k)) == Renamed(rest, p, q, k)
    ensures ReplaceAll(Renamed(s, p, q, k - 1), Token(p, k), Token(q, k)) == Renamed(s, p, q, k)
  {
    var t, r := Token(p, k), Renamed(rest, p, q, k - 1);
    RenamedPassesToken(rest, p, q, k);
    RenamedHitsToken(rest, p, q, k);
    TokenShape(p, k);
    assert (t + r)[|t|..] == r;
  }

  /** Replacing token k after the tokens below it extends the renaming to leading digit k. */
  lemma {:induction false} ShiftStep(s: string, p: nat, q: nat, k: nat)
    requires p != q && k >= 1
    ensures ReplaceAll(Renamed(s, p, q, Digits(k - 1)), Token(p, k), Token(q, k)) == Renamed(s, p, q, Digits(k))
    decreases |s|
  {
    if s == [] {
    } else if Opens(s, p, Digits(k - 1)) {
      ShiftPast(s, p, q, k);
    } else if Opens(s, p, Digits(k)) {
      OpensToken(s, p, k);
      var rest := s[|Token(p, k)|..];
      ShiftStep(rest, p, q, k);
      ShiftHit(s, rest, p, q, k);
    } else {
      ReplaceAtRenamed(s, p, q, k);
      ShiftStep(s[1..], p, q, k);
    }
  }

  lemma ShiftPast(s: string, p: nat, q: nat, k: nat)
    requires p != q && k >= 1 && s != [] && Opens(s, p, Digits(k - 1))
    ensures ReplaceAll(Renamed(s, p, q, Digits(k - 1)), Token(p, k), Token(q, k)) == Renamed(s, p, q, Digits(k))
    decreases |s|, 0
  {
    HeadShape(p);
    var rest := s[|Head(p)|..];
    ReplacePassesHead(Renamed(rest, p, q, Digits(k - 1)), p, q, k);
    ShiftStep(rest, p, q, k);
    assert Opens(s, p, Digits(k));
  }

  /** Replacing the tokens one after the other is one simultaneous renaming: it renames
      exactly the heads of position p before a leading digit from 1 to min(n, 9) and copies
      all other text, although token 1 is a prefix of tokens 10 to 19. */
  lemma {:induction false} ShiftIsRenaming(s: string, p: nat, q: nat, n: nat)
    requires p != q
    ensures Shifted(s, p, q, n) == Renamed(s, p, q, Digits(n))
  {
    if n == 0 {
      RenamedNothing(s, p, q);
    } else {
      ShiftIsRenaming(s, p, q, n - 1);
      ShiftStep(s, p, q, n);
    }
  }

  // ---- When that is the renaming of the tokens 1 to n ----

  /** `s` opens with exactly one of the tokens 1 to n: its number ends where the token does. */
  predicate Names(s: string, p: nat, n: nat) {
    exists k: nat :: 1 <= k <= n && HasPrefix(s, Token(p, k)) && (|s| == |Token(p, k)| || !IsDigit(s[|Token(p, k)|]))
  }

  /** One pass that renames the tokens 1 to n of position p and nothing else. */
  function Substituted(s: string, p: nat, q: nat, n: nat): string {
    if s == [] then []
    else if Names(s, p, n) then Head(q) + Substituted(s[|Head(p)|..], p, q, n)
    else [s[0]] + Substituted(s[1..], p, q, n)
  }

  /** No token of position p has a number above n with a leading digit up to n. */
  predicate Confined(s: string, p: nat, n: nat) {
    s == [] || ((Opens(s, p, Digits(n)) ==> Names(s, p, n)) && Confined(s[1..], p, n))
  }

  lemma NamesOpens(s: string, p: nat, n: nat)
    requires Names(s, p, n)
    ensures Opens(s, p, Digits(n))
  {
    var k: nat :| 1 <= k <= n && HasPrefix(s, Token(p, k));
    TokenOpens(s, p, k, Digits(n));
  }

  lemma {:induction false} ConfinedCopies(u: string, x: string, p: nat, n: nat)
    requires 'a' !in u
    ensures Confined(u + x, p, n) <==> Confined(x, p, n)
    decreases |u|
  {
    if u == [] {
      assert u + x == x;
    } else {
      HeadShape(p);
      assert (u + x)[0] == u[0] && (u + x)[1..] == u[1..] + x;
      ConfinedCopies(u[1..], x, p, n);
      assert !Opens(u + x, p, Digits(n));
    }
  }

  lemma {:induction false} SubstitutedPrefix(u: string, s: string, p: nat, q: nat, n: nat)
    requires 'a' !in u
    ensures HasPrefix(Substituted(s, p, q, n), u) <==> HasPrefix(s, u)
    decreases |u|
  {
    if u != [] && s != [] {
      HeadShape(p);
      HeadShape(q);
      PrefixCons(s, u);
      PrefixCons(Substituted(s, p, q, n), u);
      if Names(s, p, n) {
        NamesOpens(s, p, n);
      } else {
        SubstitutedPrefix(u[1..], s[1..], p, q, n);
      }
    }
  }

  lemma ConcatInjective(u: string, x: string, y: string)
    ensures u + x == u + y <==> x == y
  {
    assert (u + x)[|u|..] == x && (u + y)[|u|..] == y;
  }

  /** The two passes part at a token whose number is above n. */
  lemma PassesPart(s: string, p: nat, q: nat, n: nat, x: string)
    requires p != q && s != [] && Opens(s, p, Digits(n)) && !Names(s, p, n)
    ensures Head(q) + x != [s[0]] + Substituted(s[1..], p, q, n)
  {
    var copied := [s[0]] + Substituted(s[1..], p, q, n);
    HeadShape(p);
    PrefixCons(s, Head(p));
    SubstitutedPrefix(Head(p)[1..], s[1..], p, q, n);
    assert copied[1..] == Substituted(s[1..], p, q, n);
    PrefixCons(copied, Head(p));
    if Head(q) + x == copied {
      HeadUnique(copied, p, q);
    }
  }

  /** Shifting renames the tokens 1 to n and nothing else exactly if no token number above
      n has a leading digit up to n. */
  lemma {:induction false} RenamedIsSubstituted(s: string, p: nat, q: nat, n: nat)
    requires p != q
    ensures Renamed(s, p, q, Digits(n)) == Substituted(s, p, q, n) <==> Confined(s, p, n)
    decreases |s|
  {
    if s == [] {
    } else if Opens(s, p, Digits(n)) {
      var h := Head(p);
      HeadShape(p);
      if Names(s, p, n) {
        RenamedIsSubstituted(s[|h|..], p, q, n);
        ConcatInjective(Head(q), Renamed(s[|h|..], p, q, Digits(n)), Substituted(s[|h|..], p, q, n));
        assert s[1..] == h[1..] + s[|h|..];
        ConfinedCopies(h[1..], s[|h|..], p, n);
      } else {
        PassesPart(s, p, q, n, Renamed(s[|h|..], p, q, Digits(n)));
      }
    } else {
      assert !Names(s, p, n) by {
        if Names(s, p, n) {
          NamesOpens(s, p, n);
        }
      }
      RenamedIsSubstituted(s[1..], p, q, n);
      ConcatInjective([s[0]], Renamed(s[1..], p, q, Digits(n)), Substituted(s[1..], p, q, n));
    }
  }

  lemma ShiftIsSubstitution(s: string, p: nat, q: nat, n: nat)
    requires p != q
    ensures Shifted(s, p, q, n) == Substituted(s, p, q, n) <==> Confined(s, p, n)
  {
    ShiftIsRenaming(s, p, q, n);
    RenamedIsSubstituted(s, p, q, n);
  }

  // ---- Shifting back ----

  /** A head of position p before a leading digit from 1 to m occurs somewhere in `s`. */
  predicate HasToken(s: string, p: nat, m: nat) {
    s != [] && (Opens(s, p, m) || HasToken(s[1..], p, m))
  }

  lemma {:induction false} HasTokenCopies(u: string, x: string, p: nat, m: nat)
    requires 'a' !in u
    ensures HasToken(u + x, p, m) <==> HasToken(x, p, m)
    decreases |u|
  {
    if u == [] {
      assert u + x == x;
    } else {
      HeadShape(p);
      assert (u + x)[0] == u[0] && (u + x)[1..] == u[1..] + x;
      HasTokenCopies(u[1..], x, p, m);
      assert !Opens(u + x, p, m);
    }
  }

  /** A renamed head is found again: its leading digit is untouched. */
  lemma RenamedHeadOpens(s: string, p: nat, q: nat, m: nat)
    requires Opens(s, p, m)
    ensures Opens(Renamed(s, p, q, m), q, m)
    ensures Renamed(s, p, q, m)[|Head(q)|..] == Renamed(s[|Head(p)|..], p, q, m)
  {
    var rest := s[|Head(p)|..];
    var d := [rest[0]];
    assert rest == d + rest[1..];
    RenamedCopies(d, rest[1..], p, q, m);
  }

  /** Away from heads of position p, renaming keeps what the text opens with. */
  lemma RenamedOpens(s: string, p: nat, q: nat, m: nat)
    requires s != [] && !Opens(s, p, m)
    ensures Opens(Renamed(s, p, q, m), q, m) <==> Opens(s, q, m)
  {
    var r, h := Renamed(s, p, q, m), Head(q);
    HeadShape(q);
    assert r == [s[0]] + Renamed(s[1..], p, q, m) && r[1..] == Renamed(s[1..], p, q, m);
    if Opens(r, q, m) {
      OpensKept(r, s, p, q, m, r[|h|]);
    }
    if Opens(s, q, m) {
      OpensKept(r, s, p, q, m, s[|h|]);
    }
  }

  lemma OpensKept(r: string, s: string, p: nat, q: nat, m: nat, d: char)
    requires s != [] && r == [s[0]] + Renamed(s[1..], p, q, m) && m <= 9 && '1' <= d <= DIGITS[m]
    ensures HasPrefix(r, Head(q) + [d]) <==> HasPrefix(s, Head(q) + [d])
    ensures HasPrefix(r, Head(q) + [d]) ==> Opens(r, q, m)
    ensures HasPrefix(s, Head(q) + [d]) ==> Opens(s, q, m)
    ensures Opens(r, q, m) && r[|Head(q)|] == d ==> HasPrefix(r, Head(q) + [d])
    ensures Opens(s, q, m) && s[|Head(q)|] == d ==> HasPrefix(s, Head(q) + [d])
  {
    var h := Head(q);
    var u := h + [d];
    HeadShape(q);
    assert u[1..] == h[1..] + [d];
    PrefixCons(r, u);
    PrefixCons(s, u);
    assert r[1..] == Renamed(s[1..], p, q, m);
    RenamedPrefix(u[1..], s[1..], p, q, m);
    assert u[..|h|] == h && u[|h|] == d;
    assert forall x: string | |x| > |h| && HasPrefix(x, h) && x[|h|] == d :: x[..|h| + 1] == u;
  }

  /** Shifting to position q and back is the identity exactly if the text held no token of
      position q. */
  lemma {:induction false} RenamingUndone(s: string, p: nat, q: nat, m: nat)
    requires p != q
    ensures Renamed(Renamed(s, p, q, m), q, p, m) == s <==> !HasToken(s, q, m)
    decreases |s|
  {
    if s == [] {
    } else if Opens(s, p, m) {
      UndoneAtHead(s, p, q, m);
    } else {
      RenamedOpens(s, p, q, m);
      var r := Renamed(s, p, q, m);
      if Opens(s, q, m) {
        if Renamed(r, q, p, m) == s {
          HeadUnique(s, p, q);
        }
      } else {
        assert r[1..] == Renamed(s[1..], p, q, m);
        RenamingUndone(s[1..], p, q, m);
        ConcatInjective([s[0]], Renamed(r[1..], q, p, m), s[1..]);
      }
    }
  }

  lemma UndoneAtHead(s: string, p: nat, q: nat, m: nat)
    requires p != q && Opens(s, p, m)
    ensures Renamed(Renamed(s, p, q, m), q, p, m) == s <==> !HasToken(s, q, m)
    decreases |s|, 0
  {
    var h := Head(p);
    var rest := s[|h|..];
    HeadShape(p);
    RenamedHeadOpens(s, p, q, m);
    RenamingUndone(rest, p, q, m);
    ConcatInjective(h, Renamed(Renamed(rest, p, q, m), q, p, m), rest);
    assert s == h + rest && s[1..] == h[1..] + rest;
    HasTokenCopies(h[1..], rest, q, m);
    if Opens(s, q, m) {
      HeadUnique(s, p, q);
    }
  }

  lemma ShiftUndone(s: string, p: nat, q: nat, n: nat)
    requires p != q
    ensures Shifted(Shifted(s, p, q, n), q, p, n) == s <==> !HasToken(s, q, Digits(n))
  {
    ShiftIsRenaming(s, p, q, n);
    ShiftIsRenaming(Shifted(s, p, q, n), q, p, n);
    RenamingUndone(s, p, q, Digits(n));
  }

  /** With a single binding the shift also renames token 10, which is not one of its tokens. */
  lemma ShiftOverreaches()
    ensures !Confined(Token(1, 10), 1, 1)
    ensures Shifted(Token(1, 10), 1, 2, 1) != Substituted(Token(1, 10), 1, 2, 1)
  {
    var s := Token(1, 10);
    assert Decimal(1) == "1" && Decimal(10) == "10";
    assert s[..|Head(1)|] == Head(1) && s[|Head(1)|] == '1';
    assert |Token(1, 1)| == |Head(1)| + 1 && s[|Head(1)| + 1] == '0';
    assert !Names(s, 1, 1);
    ShiftIsSubstitution(s, 1, 2, 1);
  }

  // ---- Rendered stages ----

  /** A stage text with a place for each artifact token. */
  datatype Piece = Literal(text: string) | Slot(binding: nat)

  /** The text as it is rendered for a stage at position p. */
  function Rendered(pieces: seq<Piece>, p: nat): string {
    if pieces == [] then []
    else
      (match pieces[0]
       case Literal(text) => text
       case Slot(k) => Token(p, k))
      + Rendered(pieces[1..], p)
  }

  /** No token of position p opens inside the literal `text` followed by `after`. */
  predicate LiteralText(text: string, after: string, p: nat, m: nat) {
    text == [] || (!Opens(text + after, p, m) && LiteralText(text[1..], after, p, m))
  }

  /** The slots are bindings 1 to n, and the literals hold no token of position p. */
  predicate IsTemplate(pieces: seq<Piece>, p: nat, n: nat) {
    pieces == [] ||
    (&& IsTemplate(pieces[1..], p, n)
     && match pieces[0]
        case Literal(text) => LiteralText(text, Rendered(pieces[1..], p), p, Digits(n))
        case Slot(k) => 1 <= k <= n)
  }

  lemma {:induction false} RenamedLiteral(text: string, after: string, p: nat, q: nat, m: nat)
    requires LiteralText(text, after, p, m)
    ensures Renamed(text + after, p, q, m) == text + Renamed(after, p, q, m)
  {
    if text == [] {
      assert text + after == after;
    } else {
      assert (text + after)[1..] == text[1..] + after;
      RenamedLiteral(text[1..], after, p, q, m);
    }
  }

  lemma RenamedToken(k: nat, after: string, p: nat, q: nat, m: nat)
    requires 1 <= k && Digits(k) <= m <= 9
    ensures Renamed(Token(p, k) + after, p, q, m) == Token(q, k) + Renamed(after, p, q, m)
  {
    var s, d := Token(p, k) + after, Decimal(k);
    TokenOpens(s, p, k, m);
    assert s[|Head(p)|..] == d + after;
    DecimalFree(k, 'a');
    RenamedCopies(d, after, p, q, m);
    assert Head(q) + (d + Renamed(after, p, q, m)) == Token(q, k) + Renamed(after, p, q, m);
  }

  /** Shifting a text rendered for position p gives the text rendered for position q. */
  lemma {:induction false} ShiftMovesRendering(pieces: seq<Piece>, p: nat, q: nat, n: nat)
    requires IsTemplate(pieces, p, n)
    ensures Renamed(Rendered(pieces, p), p, q, Digits(n)) == Rendered(pieces, q)
  {
    if pieces != [] {
      ShiftMovesRendering(pieces[1..], p, q, n);
      var after := Rendered(pieces[1..], p);
      match pieces[0] {
        case Literal(text) => RenamedLiteral(text, after, p, q, Digits(n));
        case Slot(k) => RenamedToken(k, after, p, q, Digits(n));
      }
    }
  }

  // ---- The shift of one stage ----

  /** The text and artifact inputs of one plan step. */
  datatype Step = Step(input: string, artifacts: seq<string>)

  function ShiftedId(id: string, p: nat, q: nat, n: nat): string {
    if n == 0 then id
    else
      var before := ShiftedId(id, p, q, n - 1);
      if before == Token(p, n) then Token(q, n) else before
  }

  function ShiftedStep(step: Step, p: nat, q: nat, n: nat): (shifted: Step)
    ensures |shifted.artifacts| == |step.artifacts|
  {
    Step(Shifted(step.input, p, q, n),
         seq(|step.artifacts|, i requires 0 <= i < |step.artifacts| => ShiftedId(step.artifacts[i], p, q, n)))
  }

  function ShiftedSteps(steps: seq<Step>, p: nat, q: nat, n: nat): (shifted: seq<Step>)
    ensures |shifted| == |steps|
  {
    seq(|steps|, i requires 0 <= i < |steps| => ShiftedStep(steps[i], p, q, n))
  }

  lemma TokenInjective(p: nat, k: nat, q: nat, l: nat)
    requires Token(p, k) == Token(q, l)
    ensures p == q && k == l
  {
    assert HasPrefix(Token(p, k), Head(p)) && HasPrefix(Token(p, k), Head(q));
    HeadUnique(Token(p, k), p, q);
    assert Token(p, k)[|Head(p)|..] == Decimal(k) && Token(q, l)[|Head(p)|..] == Decimal(l);
    DecimalInjective(k, l);
  }

  /** An artifact identifier is shifted exactly if it is one of the tokens 1 to n. */
  lemma {:induction false} ShiftedIdMeaning(id: string, p: nat, q: nat, n: nat)
    requires p != q
    ensures forall k: nat :: 1 <= k <= n && id == Token(p, k) ==> ShiftedId(id, p, q, n) == Token(q, k)
    ensures (forall k: nat :: 1 <= k <= n ==> id != Token(p, k)) ==> ShiftedId(id, p, q, n) == id
  {
    if n > 0 {
      ShiftedIdMeaning(id, p, q, n - 1);
      forall k: nat | 1 <= k <= n && id == Token(p, k) ensures ShiftedId(id, p, q, n) == Token(q, k) {
        if k < n && Token(q, k) == Token(p, n) {
          TokenInjective(q, k, p, n);
        }
        if k == n {
          forall l: nat | 1 <= l <= n - 1 ensures id != Token(p, l) {
            if id == Token(p, l) {
              TokenInjective(p, n, p, l);
            }
          }
        }
      }
    }
  }

  /** A resolved pipeline stage whose text is rewritten in place. */
  class ResolvedStage {
    const bindings: nat
    var spec: string
    var steps: seq<Step>

    constructor (bindings: nat, spec: string, steps: seq<Step>)
      ensures this.bindings == bindings && this.spec == spec && this.steps == steps
    {
      this.bindings, this.spec, this.steps := bindings, spec, steps;
    }

    /** The innermost loops: replace token k in every step. */
    method ShiftSteps(p: nat, q: nat, k: nat, ghost original: seq<Step>)
      requires steps == ShiftedSteps(original, p, q, k) && p != q
      modifies this`steps
      ensures steps == ShiftedSteps(original, p, q, k + 1)
    {
      var previous, current := Token(p, k + 1), Token(q, k + 1);
      ghost var target := ShiftedSteps(original, p, q, k + 1);
      for s := 0 to |steps|
        invariant |steps| == |original|
        invariant forall i :: 0 <= i < s ==> steps[i] == target[i]
        invariant forall i :: s <= i < |steps| ==> steps[i] == ShiftedSteps(original, p, q, k)[i]
      {
        TokenShape(p, k + 1);
        var input := ReplaceAll(steps[s].input, previous, current);
        var artifacts := steps[s].artifacts;
        for a := 0 to |artifacts|
          invariant |artifacts| == |steps[s].artifacts|
          invariant forall i :: 0 <= i < a ==> artifacts[i] == target[s].artifacts[i]
          invariant forall i :: a <= i < |artifacts| ==> artifacts[i] == steps[s].artifacts[i]
        {
          if artifacts[a] == previous {
            artifacts := artifacts[a := current];
          }
        }
        assert Step(input, artifacts).artifacts == target[s].artifacts;
        steps := steps[s := Step(input, artifacts)];
      }
      assert steps == target;
    }

    /** internal/api/clusters.go: shiftPipelineTokens. */
    method ShiftPipelineTokens(previousPosition: nat, currentPosition: nat)
      modifies this
      ensures previousPosition == currentPosition ==> spec == old(spec) && steps == old(steps)
      ensures previousPosition != currentPosition ==>
        && spec == Shifted(old(spec), previousPosition, currentPosition, bindings)
        && steps == ShiftedSteps(old(steps), previousPosition, currentPosition, bindings)
    {
      if previousPosition == currentPosition {
        return;
      }
      assert steps == ShiftedSteps(old(steps), previousPosition, currentPosition, 0) by {
        NothingShifted(steps, previousPosition, currentPosition);
      }
      for k := 0 to bindings
        invariant spec == Shifted(old(spec), previousPosition, currentPosition, k)
        invariant steps == ShiftedSteps(old(steps), previousPosition, currentPosition, k)
      {
        TokenShape(previousPosition, k + 1);
        spec := ReplaceAll(spec, Token(previousPosition, k + 1), Token(currentPosition, k + 1));
        ShiftSteps(previousPosition, currentPosition, k, old(steps));
      }
    }
  }

  lemma NothingShifted(steps: seq<Step>, p: nat, q: nat)
    ensures ShiftedSteps(steps, p, q, 0) == steps
  {
    forall i | 0 <= i < |steps| ensures ShiftedStep(steps[i], p, q, 0) == steps[i] {
      assert ShiftedStep(steps[i], p, q, 0).artifacts == steps[i].artifacts;
    }
  }

  // ---- Positions in the recreated pipeline ----

  /** An artifact input: an existing artifact, or the artifact of a binding. */
  datatype Source = External(id: string) | Bound(binding: nat)

  datatype StepTemplate = StepTemplate(input: seq<Piece>, artifacts: seq<Source>)

  datatype StageTemplate = StageTemplate(spec: seq<Piece>, steps: seq<StepTemplate>)

  function RenderedSource(source: Source, p: nat): string {
    match source
    case External(id) => id
    case Bound(k) => Token(p, k)
  }

  function RenderedStep(t: StepTemplate, p: nat): (step: Step)
    ensures |step.artifacts| == |t.artifacts|
  {
    Step(Rendered(t.input, p), seq(|t.artifacts|, i requires 0 <= i < |t.artifacts| => RenderedSource(t.artifacts[i], p)))
  }

  function RenderedSteps(steps: seq<StepTemplate>, p: nat): (rendered: seq<Step>)
    ensures |rendered| == |steps|
  {
    seq(|steps|, i requires 0 <= i < |steps| => RenderedStep(steps[i], p))
  }

  ghost predicate IsSource(source: Source, p: nat, n: nat) {
    match source
    case External(id) => forall k: nat :: 1 <= k <= n ==> id != Token(p, k)
    case Bound(k) => 1 <= k <= n
  }

  ghost predicate IsStepTemplate(t: StepTemplate, p: nat, n: nat) {
    IsTemplate(t.input, p, n) && forall i :: 0 <= i < |t.artifacts| ==> IsSource(t.artifacts[i], p, n)
  }

  ghost predicate IsStageTemplate(t: StageTemplate, p: nat, n: nat) {
    IsTemplate(t.spec, p, n) && forall i :: 0 <= i < |t.steps| ==> IsStepTemplate(t.steps[i], p, n)
  }

  lemma ShiftMovesStep(t: StepTemplate, p: nat, q: nat, n: nat)
    requires p != q && IsStepTemplate(t, p, n)
    ensures ShiftedStep(RenderedStep(t, p), p, q, n) == RenderedStep(t, q)
  {
    ShiftIsRenaming(Rendered(t.input, p), p, q, n);
    ShiftMovesRendering(t.input, p, q, n);
    var shifted := ShiftedStep(RenderedStep(t, p), p, q, n);
    forall i | 0 <= i < |t.artifacts| ensures shifted.artifacts[i] == RenderedSource(t.artifacts[i], q) {
      assert IsSource(t.artifacts[i], p, n);
      ShiftedIdMeaning(RenderedSource(t.artifacts[i], p), p, q, n);
    }
    assert shifted.artifacts == RenderedStep(t, q).artifacts;
  }

  lemma ShiftMovesStage(t: StageTemplate, p: nat, q: nat, n: nat)
    requires p != q && IsStageTemplate(t, p, n)
    ensures Shifted(Rendered(t.spec, p), p, q, n) == Rendered(t.spec, q)
    ensures ShiftedSteps(RenderedSteps(t.steps, p), p, q, n) == RenderedSteps(t.steps, q)
  {
    ShiftIsRenaming(Rendered(t.spec, p), p, q, n);
    ShiftMovesRendering(t.spec, p, q, n);
    forall i | 0 <= i < |t.steps|
      ensures ShiftedStep(RenderedStep(t.steps[i], p), p, q, n) == RenderedStep(t.steps[i], q)
    {
      ShiftMovesStep(t.steps[i], p, q, n);
    }
  }

  /** The stage is its template, rendered for position p. */
  ghost predicate RenderedAt(stage: ResolvedStage, t: StageTemplate, p: nat)
    reads stage
  {
    stage.spec == Rendered(t.spec, p) && stage.steps == RenderedSteps(t.steps, p)
  }

  method Renumber(stage: ResolvedStage, ghost t: StageTemplate, p: nat, q: nat)
    requires IsStageTemplate(t, p, stage.bindings) && RenderedAt(stage, t, p)
    modifies stage
    ensures RenderedAt(stage, t, q)
  {
    stage.ShiftPipelineTokens(p, q);
    if p != q {
      ShiftMovesStage(t, p, q, stage.bindings);
    }
  }

  ghost predicate AtPosition(stages: seq<ResolvedStage>, templates: seq<StageTemplate>, offset: nat, i: nat)
    requires i < |stages| == |templates|
    reads stages[i]
  {
    RenderedAt(stages[i], templates[i], offset + i + 1)
  }

  ghost predicate IsRenumberable(stages: seq<ResolvedStage>, templates: seq<StageTemplate>, i: nat)
    requires i < |stages| == |templates|
  {
    IsStageTemplate(templates[i], i + 1, stages[i].bindings)
  }

  /** One turn of the renumbering loop. */
  method RenumberAt(stages: seq<ResolvedStage>, ghost templates: seq<StageTemplate>, offset: nat, index: nat)
    requires index < |stages| == |templates|
    requires IsRenumberable(stages, templates, index) && AtPosition(stages, templates, 0, index)
    modifies stages[index]
    ensures AtPosition(stages, templates, offset, index)
  {
    Renumber(stages[index], templates[index], index + 1, offset + index + 1);
  }

  /** The renumbering loop of recreateKubernetesCluster: the provisioning stages were rendered
      for positions 1 to n and come to stand behind `offset` cleanup stages. Each ends up
      rendered for the position it has in the whole pipeline, which is where the resolver
      looks for its tokens. */
  method RenumberStages(stages: seq<ResolvedStage>, ghost templates: seq<StageTemplate>, offset: nat)
    requires |stages| == |templates|
    requires forall i, j :: 0 <= i < j < |stages| ==> stages[i] != stages[j]
    requires forall i: nat :: i < |stages| ==> IsRenumberable(stages, templates, i) && AtPosition(stages, templates, 0, i)
    modifies stages
    ensures forall i: nat :: i < |stages| ==> AtPosition(stages, templates, offset, i)
    ensures forall i: nat :: i < |stages| ==>
              stages[i].spec == Rendered(templates[i].spec, offset + i + 1) && stages[i].steps == RenderedSteps(templates[i].steps, offset + i + 1)
  {
    for index := 0 to |stages|
      invariant forall i: nat :: i < index ==> AtPosition(stages, templates, offset, i)
      invariant forall i: nat :: index <= i < |stages| ==> AtPosition(stages, templates, 0, i)
    {
      RenumberAt(stages, templates, offset, index);
    }
    forall i: nat | i < |stages|
      ensures stages[i].spec == Rendered(templates[i].spec, offset + i + 1) && stages[i].steps == RenderedSteps(templates[i].steps, offset + i + 1)
    {
      assert AtPosition(stages, templates, offset, i);
    }
  }
}
