/** The regular expression `\d[\d\s]*₽` with which the price summary finds
    the amount to overwrite, and `re.sub` with it. */
module PricePattern {
  import opened Text
  import opened Money

  /** The class `[\d\s]`. The rouble sign is not in it, which is what makes
      the greedy run below the only way to match. */
  predicate IsDigitOrSpace(c: char) {
    IsDigit(c) || IsSpace(c)
  }

  /** The length of the greedy `[\d\s]*` at the start of `s`. */
  function RunLength(s: string): (k: nat)
    ensures k <= |s|
    ensures forall i :: 0 <= i < k ==> IsDigitOrSpace(s[i])
    ensures k < |s| ==> !IsDigitOrSpace(s[k])
    decreases |s|
  {
    if |s| > 0 && IsDigitOrSpace(s[0]) then 1 + RunLength(s[1..]) else 0
  }

  /** `[\d\s]*₽` matches at the start of `s`. */
  predicate RoubleFollows(s: string) {
    var k := RunLength(s);
    k < |s| && s[k] == Rouble
  }

  /** `\d[\d\s]*₽` matches at the start of `s`. */
  predicate MatchAt(s: string) {
    |s| > 0 && IsDigit(s[0]) && RoubleFollows(s[1..])
  }

  /** The length of the match at the start of `s`. */
  function MatchLength(s: string): (m: nat)
    requires MatchAt(s)
    ensures 2 <= m <= |s|
  {
    RunLength(s[1..]) + 2
  }

  /** A text the pattern matches as a whole: a digit, then digits and
      whitespace, then the rouble sign. */
  ghost predicate IsPriceLiteral(t: string) {
    && |t| >= 2
    && IsDigit(t[0])
    && t[|t| - 1] == Rouble
    && forall i :: 1 <= i < |t| - 1 ==> IsDigitOrSpace(t[i])
  }

  /** The greedy scan agrees with the pattern: a match at the start exists
      exactly when some prefix is a price literal, and that prefix is the
      scanned one, so no other match length is possible. */
  lemma MatchAtIff(s: string)
    ensures MatchAt(s) ==> IsPriceLiteral(s[..MatchLength(s)])
    ensures forall m :: 0 <= m <= |s| && IsPriceLiteral(s[..m]) ==> MatchAt(s) && m == MatchLength(s)
  {
    forall m | 0 <= m <= |s| && IsPriceLiteral(s[..m])
      ensures MatchAt(s) && m == MatchLength(s)
    {
      var t := s[..m];
      var k := RunLength(s[1..]);
      assert forall i :: 0 <= i < m - 2 ==> IsDigitOrSpace(s[1..][i]) by {
        forall i | 0 <= i < m - 2 ensures IsDigitOrSpace(s[1..][i]) {
          assert s[1..][i] == t[i + 1];
        }
      }
      assert s[1..][m - 2] == Rouble;
      assert k == m - 2;
    }
    if MatchAt(s) {
      var m := MatchLength(s);
      var t := s[..m];
      forall i | 1 <= i < |t| - 1 ensures IsDigitOrSpace(t[i]) {
        assert t[i] == s[1..][i - 1];
      }
    }
  }

  /** `re.search(r'\d[\d\s]*₽', s)` finds a match. */
  predicate Search(s: string)
    decreases |s|
  {
    MatchAt(s) || (|s| > 0 && Search(s[1..]))
  }

  /** `re.sub(r'\d[\d\s]*₽', repl, s)`: every match, leftmost first and not
      overlapping, is replaced by `repl`. Without a match the text is kept. */
  function Substitute(s: string, repl: string): (r: string)
    ensures !Search(s) ==> r == s
    decreases |s|
  {
    if |s| == 0 then ""
    else if MatchAt(s) then repl + Substitute(s[MatchLength(s)..], repl)
    else [s[0]] + Substitute(s[1..], repl)
  }

  /** A price literal in front of any text is matched in full. */
  lemma LiteralRun(f: string, x: string)
    requires IsPriceLiteral(f)
    ensures RunLength(f + x) == |f| - 1
    ensures RunLength((f + x)[1..]) == |f| - 2
    ensures MatchAt(f + x) && MatchLength(f + x) == |f|
  {
    var s := f + x;
    var k := RunLength(s[1..]);
    assert s[1..][|f| - 2] == Rouble;
    forall i | 0 <= i < |f| - 2 ensures IsDigitOrSpace(s[1..][i]) {
      assert s[1..][i] == f[i + 1];
    }
    assert k == |f| - 2;
    assert IsDigitOrSpace(s[0]);
    assert RunLength(s) == 1 + RunLength(s[1..]);
  }

  /** One step of the run over a leading `[\d\s]` character. */
  lemma RunCons(c: char, x: string)
    requires IsDigitOrSpace(c)
    ensures RunLength([c] + x) == 1 + RunLength(x)
    ensures RoubleFollows([c] + x) == RoubleFollows(x)
  {
    assert ([c] + x)[1..] == x;
  }

  /** Substitution with a price literal does not change whether a rouble
      sign ends the leading `[\d\s]` run. */
  lemma {:induction false} RoubleFollowsKept(u: string, f: string)
    requires IsPriceLiteral(f)
    ensures RoubleFollows(Substitute(u, f)) == RoubleFollows(u)
    decreases |u|
  {
    if |u| == 0 {
    } else if MatchAt(u) {
      var m := MatchLength(u);
      var rest := Substitute(u[m..], f);
      assert Substitute(u, f) == f + rest;
      LiteralRun(f, rest);
      RunCons(u[0], u[1..]);
      assert [u[0]] + u[1..] == u;
    } else if IsDigitOrSpace(u[0]) {
      RoubleFollowsKept(u[1..], f);
      RunCons(u[0], u[1..]);
      RunCons(u[0], Substitute(u[1..], f));
      assert [u[0]] + u[1..] == u;
    } else {
      assert Substitute(u, f) == [u[0]] + Substitute(u[1..], f);
    }
  }

  /** Re-running the substitution with the same price literal changes
      nothing: the literal is matched in full again, and no kept text can
      start a new match. */
  lemma {:induction false} SubstituteIdempotent(s: string, f: string)
    requires IsPriceLiteral(f)
    ensures Substitute(Substitute(s, f), f) == Substitute(s, f)
    decreases |s|
  {
    if |s| == 0 {
    } else if MatchAt(s) {
      var rest := Substitute(s[MatchLength(s)..], f);
      LiteralRun(f, rest);
      assert (f + rest)[|f|..] == rest;
      SubstituteIdempotent(s[MatchLength(s)..], f);
    } else {
      var rest := Substitute(s[1..], f);
      RoubleFollowsKept(s[1..], f);
      assert ([s[0]] + rest)[1..] == rest;
      assert !MatchAt([s[0]] + rest);
      SubstituteIdempotent(s[1..], f);
    }
  }

  /** Every character of a grouped amount is a digit or a space. */
  lemma {:induction false} GroupedChars(s: string)
    requires Grouped(s)
    ensures |s| > 0
    ensures forall i :: 0 <= i < |s| ==> IsDigitOrSpace(s[i])
    decreases |s|
  {
    if !(1 <= |s| <= 3 && AllDigits(s)) {
      GroupedChars(s[..|s| - 4]);
      forall i | 0 <= i < |s| ensures IsDigitOrSpace(s[i]) {
        if i < |s| - 4 {
          assert s[i] == s[..|s| - 4][i];
        } else if i > |s| - 4 {
          assert s[i] == s[|s| - 3..][i - (|s| - 3)];
        }
      }
    }
  }

  /** The money text of a non-negative amount is itself a price literal, so
      it is what the summary pattern finds again. */
  lemma MoneyIsPriceLiteral(n: int)
    requires n >= 0
    ensures IsPriceLiteral(FormatMoney(n))
  {
    var a := Amount(n);
    var f := FormatMoney(n);
    GroupedChars(a);
    assert f == a + [' ', Rouble];
    forall i | 1 <= i < |f| - 1 ensures IsDigitOrSpace(f[i]) {
      if i < |a| {
        assert f[i] == a[i];
      }
    }
  }

  /** Re-running the summary substitution with the same total is a no-op. */
  lemma MoneySubstituteIdempotent(s: string, total: int)
    requires total >= 0
    ensures Substitute(Substitute(s, FormatMoney(total)), FormatMoney(total)) == Substitute(s, FormatMoney(total))
  {
    MoneyIsPriceLiteral(total);
    SubstituteIdempotent(s, FormatMoney(total));
  }
}
