/** `replace_text_in_slide`: the list of replace-all requests sent to the
    slides service, and what applying it in order does to a text made of
    literal runs and `{{KEY}}` / `{KEY}` placeholders. */
module SlidesRequests {
  import opened Wrappers
  import opened Text
  import opened Values

  /** One `replaceAllText` request. */
  datatype Request = ReplaceAllText(containsText: string, replaceText: string)

  /** The replacement map in insertion order. */
  type Replacements = seq<(string, Value)>

  function DoubleBraced(key: string): string {
    "{{" + key + "}}"
  }

  function SingleBraced(key: string): string {
    "{" + key + "}"
  }

  /** The placeholder text one pass searches for. */
  function Token(key: string, double: bool): string {
    if double then DoubleBraced(key) else SingleBraced(key)
  }

  /** One loop over the map: a request per entry, in map order, searching
      for the double- or the single-braced key. */
  function PassRequests(m: Replacements, double: bool): (r: seq<Request>)
    ensures |r| == |m|
    ensures forall i :: 0 <= i < |m| ==> r[i] == ReplaceAllText(Token(m[i].0, double), Str(m[i].1))
    decreases |m|
  {
    if |m| == 0 then []
    else [ReplaceAllText(Token(m[0].0, double), Str(m[0].1))] + PassRequests(m[1..], double)
  }

  /** The request list: all double-braced requests first, then all
      single-braced ones, so there are exactly two per entry. */
  function BuildRequests(m: Replacements): (r: seq<Request>)
    ensures |r| == 2 * |m|
    ensures forall i :: 0 <= i < |m| ==>
      && r[i] == ReplaceAllText(DoubleBraced(m[i].0), Str(m[i].1))
      && r[|m| + i] == ReplaceAllText(SingleBraced(m[i].0), Str(m[i].1))
  {
    PassRequests(m, true) + PassRequests(m, false)
  }

  /** The requests applied one after the other, each a replace-all over the
      whole text. Case-sensitive matching is assumed. */
  function ApplyRequests(text: string, reqs: seq<Request>): string
    decreases |reqs|
  {
    if |reqs| == 0 then text
    else ApplyRequests(ReplaceAll(text, reqs[0].containsText, reqs[0].replaceText), reqs[1..])
  }

  lemma {:induction false} ApplyAppend(text: string, a: seq<Request>, b: seq<Request>)
    ensures ApplyRequests(text, a + b) == ApplyRequests(ApplyRequests(text, a), b)
    decreases |a|
  {
    if |a| == 0 {
      assert a + b == b;
    } else {
      assert (a + b)[1..] == a[1..] + b;
      ApplyAppend(ReplaceAll(text, a[0].containsText, a[0].replaceText), a[1..], b);
    }
  }

  // ---------------------------------------------------------------------------
  // Texts made of placeholders
  // ---------------------------------------------------------------------------

  predicate NoBraces(t: string) {
    '{' !in t && '}' !in t
  }

  predicate GoodKey(k: string) {
    |k| > 0 && NoBraces(k)
  }

  /** A piece of slide text: literal text, a double-braced placeholder or a
      single-braced one. */
  datatype Piece = Lit(text: string) | Double(key: string) | Single(key: string)

  predicate GoodPiece(p: Piece) {
    match p
    case Lit(t) => NoBraces(t)
    case Double(k) => GoodKey(k)
    case Single(k) => GoodKey(k)
  }

  function PieceText(p: Piece): string {
    match p
    case Lit(t) => t
    case Double(k) => DoubleBraced(k)
    case Single(k) => SingleBraced(k)
  }

  function Render(ps: seq<Piece>): string
    decreases |ps|
  {
    if |ps| == 0 then "" else PieceText(ps[0]) + Render(ps[1..])
  }

  /** Keys and values that carry no braces themselves. */
  predicate GoodReplacements(m: Replacements) {
    forall i :: 0 <= i < |m| ==> GoodKey(m[i].0) && NoBraces(Str(m[i].1))
  }

  /** The value of the first entry with key `k`. */
  function Lookup(m: Replacements, k: string): (r: Option<string>)
    ensures r.None? <==> forall i :: 0 <= i < |m| ==> m[i].0 != k
    ensures r.Some? ==> exists i :: 0 <= i < |m| && m[i].0 == k && r.value == Str(m[i].1)
    decreases |m|
  {
    if |m| == 0 then None
    else if m[0].0 == k then Some(Str(m[0].1))
    else Lookup(m[1..], k)
  }

  /** With distinct keys, each entry is the one found for its key. */
  lemma {:induction false} LookupDistinct(m: Replacements, i: nat)
    requires i < |m|
    requires forall a, b :: 0 <= a < b < |m| ==> m[a].0 != m[b].0
    ensures Lookup(m, m[i].0) == Some(Str(m[i].1))
    decreases i
  {
    if i > 0 {
      assert m[0].0 != m[i].0;
      assert m[1..][i - 1] == m[i];
      LookupDistinct(m[1..], i - 1);
    }
  }

  /** What a piece should become: a placeholder of either form whose key is
      in the map shows that key's value; anything else stays as it was. */
  function Resolve(p: Piece, m: Replacements): Piece {
    match p
    case Lit(_) => p
    case Double(k) => (match Lookup(m, k) case Some(v) => Lit(v) case None => p)
    case Single(k) => (match Lookup(m, k) case Some(v) => Lit(v) case None => p)
  }

  // ---------------------------------------------------------------------------
  // One replace-all over pieces
  // ---------------------------------------------------------------------------

  /** Every occurrence of `target` replaced by the literal `v`. */
  function SubstPieces(ps: seq<Piece>, target: Piece, v: string): seq<Piece> {
    seq(|ps|, i requires 0 <= i < |ps| => if ps[i] == target then Lit(v) else ps[i])
  }

  /** A prefix without `{` cannot hold the start of a placeholder, so it is
      copied unchanged. */
  lemma {:induction false} SkipPlain(t: string, s: string, pat: string, v: string)
    requires '{' !in t && |pat| > 0 && pat[0] == '{'
    ensures ReplaceAll(t + s, pat, v) == t + ReplaceAll(s, pat, v)
    decreases |t|
  {
    if |t| == 0 {
      assert t + s == s;
    } else {
      var c := t[0];
      var u := t[1..];
      assert t == [c] + u;
      Regroup([c], u, s, "");
      assert !(pat <= [c] + (u + s)) by {
        assert ([c] + (u + s))[0] != pat[0];
      }
      SkipOne(c, u + s, pat, v);
      SkipPlain(u, s, pat, v);
      Regroup([c], u, ReplaceAll(s, pat, v), "");
    }
  }

  /** `{k}` is a prefix of `{j}...` only when the keys are equal. */
  lemma SingleKeysMatch(j: string, k: string, rest: string)
    requires GoodKey(j) && GoodKey(k)
    requires SingleBraced(k) <= SingleBraced(j) + rest
    ensures j == k
  {
    var pat := SingleBraced(k);
    var text := SingleBraced(j) + rest;
    var n := if |k| < |j| then |k| else |j|;
    assert pat[n + 1] == text[n + 1];
    assert |k| == |j|;
    forall i | 0 <= i < |k| ensures k[i] == j[i] {
      assert pat[i + 1] == text[i + 1];
    }
  }

  /** `{{k}}` is a prefix of `{{j}}...` only when the keys are equal. */
  lemma DoubleKeysMatch(j: string, k: string, rest: string)
    requires GoodKey(j) && GoodKey(k)
    requires DoubleBraced(k) <= DoubleBraced(j) + rest
    ensures j == k
  {
    var pat := DoubleBraced(k);
    var text := DoubleBraced(j) + rest;
    var n := if |k| < |j| then |k| else |j|;
    assert pat[n + 2] == text[n + 2];
    assert |k| == |j|;
    forall i | 0 <= i < |k| ensures k[i] == j[i] {
      assert pat[i + 2] == text[i + 2];
    }
  }

  /** A first character the search does not start at is copied. */
  lemma SkipOne(c: char, rest: string, pat: string, v: string)
    requires |pat| > 0 && !(pat <= [c] + rest)
    ensures ReplaceAll([c] + rest, pat, v) == [c] + ReplaceAll(rest, pat, v)
  {
    var t := [c] + rest;
    assert t[0] == c && t[1..] == rest;
    NotPrefixHere(t, pat, v);
  }

  lemma Regroup(a: string, b: string, c: string, d: string)
    ensures a + (b + (c + d)) == (a + b + c) + d
    ensures a + (b + c) == (a + b) + c
  {
  }

  /** A `{j}` the search does not start at is copied whole. */
  lemma SkipSingle(j: string, s: string, pat: string, v: string)
    requires GoodKey(j) && |pat| > 0 && pat[0] == '{'
    requires !(pat <= SingleBraced(j) + s)
    ensures ReplaceAll(SingleBraced(j) + s, pat, v) == SingleBraced(j) + ReplaceAll(s, pat, v)
  {
    var tail := j + "}";
    Regroup("{", tail, s, "");
    assert SingleBraced(j) == "{" + tail;
    assert SingleBraced(j) + s == ['{'] + (tail + s);
    SkipOne('{', tail + s, pat, v);
    SkipPlain(tail, s, pat, v);
    Regroup("{", tail, ReplaceAll(s, pat, v), "");
  }

  /** A `{{j}}` the search starts neither at nor one character into is
      copied whole. */
  lemma SkipDouble(j: string, s: string, pat: string, v: string)
    requires GoodKey(j) && |pat| > 0 && pat[0] == '{'
    requires !(pat <= DoubleBraced(j) + s)
    requires !(pat <= SingleBraced(j) + ("}" + s))
    ensures ReplaceAll(DoubleBraced(j) + s, pat, v) == DoubleBraced(j) + ReplaceAll(s, pat, v)
  {
    var inner := SingleBraced(j);
    var close := "}";
    assert DoubleBraced(j) == "{" + inner + close;
    Regroup("{", inner, close, s);
    SkipOne('{', inner + (close + s), pat, v);
    SkipSingle(j, close + s, pat, v);
    SkipPlain(close, s, pat, v);
    Regroup("{", inner, close, ReplaceAll(s, pat, v));
  }

  /** The target placeholder itself is replaced by the value. */
  lemma ReplaceTarget(t: string, s: string, v: string)
    requires |t| > 0
    ensures ReplaceAll(t + s, t, v) == v + ReplaceAll(s, t, v)
  {
    MatchHere(t + s, t, v);
    assert (t + s)[|t|..] == s;
  }

  /** The replace-all of one placeholder acts on the first piece alone and
      then carries on with the rest of the text. */
  lemma ReplaceHead(p: Piece, s: string, target: Piece, v: string)
    requires GoodPiece(p) && GoodPiece(target) && !target.Lit?
    requires target.Single? ==> p != Double(target.key)
    ensures ReplaceAll(PieceText(p) + s, PieceText(target), v)
         == PieceText(if p == target then Lit(v) else p) + ReplaceAll(s, PieceText(target), v)
  {
    var pat := PieceText(target);
    var k := target.key;
    assert pat[0] == '{';
    if p == target {
      ReplaceTarget(pat, s, v);
    } else {
      match p
      case Lit(t) =>
        SkipPlain(t, s, pat, v);
      case Single(j) =>
        assert !(pat <= SingleBraced(j) + s) by {
          if target.Single? {
            if pat <= SingleBraced(j) + s { SingleKeysMatch(j, k, s); }
          } else {
            assert (SingleBraced(j) + s)[1] != pat[1];
          }
        }
        SkipSingle(j, s, pat, v);
      case Double(j) =>
        assert !(pat <= DoubleBraced(j) + s) by {
          if target.Double? {
            if pat <= DoubleBraced(j) + s { DoubleKeysMatch(j, k, s); }
          } else {
            assert (DoubleBraced(j) + s)[1] != pat[1];
          }
        }
        assert !(pat <= SingleBraced(j) + ("}" + s)) by {
          if target.Single? {
            if pat <= SingleBraced(j) + ("}" + s) { SingleKeysMatch(j, k, "}" + s); }
          } else {
            assert (SingleBraced(j) + ("}" + s))[1] != pat[1];
          }
        }
        SkipDouble(j, s, pat, v);
    }
  }

  /** A replace-all of one placeholder over a rendered text replaces exactly
      the pieces that are that placeholder. A single-braced search must not
      meet the double-braced form of the same key, which contains it. */
  lemma {:induction false} ReplaceToken(ps: seq<Piece>, target: Piece, v: string)
    requires forall i :: 0 <= i < |ps| ==> GoodPiece(ps[i])
    requires GoodPiece(target) && !target.Lit? && NoBraces(v)
    requires target.Single? ==> Double(target.key) !in ps
    ensures ReplaceAll(Render(ps), PieceText(target), v) == Render(SubstPieces(ps, target, v))
    decreases |ps|
  {
    var pat := PieceText(target);
    var sub := SubstPieces(ps, target, v);
    if |ps| == 0 {
      assert Render(ps) == "" && Render(sub) == "";
      assert ReplaceAll("", pat, v) == "";
    } else {
      var rest := Render(ps[1..]);
      assert Render(ps) == PieceText(ps[0]) + rest;
      ReplaceHead(ps[0], rest, target, v);
      ReplaceToken(ps[1..], target, v);
      assert sub[1..] == SubstPieces(ps[1..], target, v);
      assert Render(sub) == PieceText(sub[0]) + Render(sub[1..]);
    }
  }

  // ---------------------------------------------------------------------------
  // The two passes
  // ---------------------------------------------------------------------------

  /** The pieces after the double-braced pass. */
  function ResolveDouble(p: Piece, m: Replacements): Piece {
    match p
    case Double(k) => (match Lookup(m, k) case Some(v) => Lit(v) case None => p)
    case _ => p
  }

  /** The pieces after the single-braced pass. */
  function ResolveSingle(p: Piece, m: Replacements): Piece {
    match p
    case Single(k) => (match Lookup(m, k) case Some(v) => Lit(v) case None => p)
    case _ => p
  }

  function MapPieces(ps: seq<Piece>, m: Replacements, double: bool): seq<Piece> {
    seq(|ps|, i requires 0 <= i < |ps| => ResolvePass(ps[i], m, double))
  }

  /** No double-braced placeholder of any key of `m` is left. */
  predicate NoDoubleOf(ps: seq<Piece>, m: Replacements) {
    forall i :: 0 <= i < |ps| ==> !(ps[i].Double? && Lookup(m, ps[i].key).Some?)
  }

  function ResolvePass(p: Piece, m: Replacements, double: bool): Piece {
    if double then ResolveDouble(p, m) else ResolveSingle(p, m)
  }

  /** The placeholder one request of a pass searches for. */
  function PassTarget(key: string, double: bool): Piece {
    if double then Double(key) else Single(key)
  }

  /** Resolving against the whole map is the first entry's replacement
      followed by resolving against the remaining entries. */
  lemma ResolveStep(p: Piece, m: Replacements, double: bool)
    requires |m| > 0
    ensures ResolvePass(p, m, double)
         == ResolvePass(if p == PassTarget(m[0].0, double) then Lit(Str(m[0].1)) else p, m[1..], double)
  {
  }

  /** The first request of a pass, applied to the rendered pieces. */
  lemma PassHead(ps: seq<Piece>, m: Replacements, double: bool)
    requires |m| > 0
    requires forall i :: 0 <= i < |ps| ==> GoodPiece(ps[i])
    requires GoodReplacements(m)
    requires !double ==> NoDoubleOf(ps, m)
    ensures ApplyRequests(Render(ps), PassRequests(m, double))
         == ApplyRequests(Render(SubstPieces(ps, PassTarget(m[0].0, double), Str(m[0].1))), PassRequests(m[1..], double))
  {
    var reqs := PassRequests(m, double);
    var key := m[0].0;
    var target := PassTarget(key, double);
    assert PieceText(target) == Token(key, double);
    assert reqs[0] == ReplaceAllText(PieceText(target), Str(m[0].1));
    assert reqs[1..] == PassRequests(m[1..], double);
    if !double {
      assert Lookup(m, key).Some?;
      forall i | 0 <= i < |ps| ensures ps[i] != Double(key) {
        assert !(ps[i].Double? && Lookup(m, ps[i].key).Some?);
      }
    }
    ReplaceToken(ps, target, Str(m[0].1));
  }

  /** The pieces after the first request still meet the pass's
      preconditions for the remaining entries. */
  lemma PassHeadKeeps(ps: seq<Piece>, m: Replacements, double: bool)
    requires |m| > 0
    requires forall i :: 0 <= i < |ps| ==> GoodPiece(ps[i])
    requires GoodReplacements(m)
    requires !double ==> NoDoubleOf(ps, m)
    ensures var ps' := SubstPieces(ps, PassTarget(m[0].0, double), Str(m[0].1));
      && (forall i :: 0 <= i < |ps'| ==> GoodPiece(ps'[i]))
      && GoodReplacements(m[1..])
      && (!double ==> NoDoubleOf(ps', m[1..]))
  {
    var ps' := SubstPieces(ps, PassTarget(m[0].0, double), Str(m[0].1));
    if !double {
      forall i | 0 <= i < |ps'| ensures !(ps'[i].Double? && Lookup(m[1..], ps'[i].key).Some?) {
        assert !(ps[i].Double? && Lookup(m, ps[i].key).Some?);
      }
    }
  }

  /** Resolving against the whole map, piece by piece, is the first
      request's replacement followed by resolving against the rest. */
  lemma PassHeadResolves(ps: seq<Piece>, m: Replacements, double: bool)
    requires |m| > 0
    ensures MapPieces(SubstPieces(ps, PassTarget(m[0].0, double), Str(m[0].1)), m[1..], double)
         == MapPieces(ps, m, double)
  {
    var ps' := SubstPieces(ps, PassTarget(m[0].0, double), Str(m[0].1));
    forall i | 0 <= i < |ps| ensures MapPieces(ps', m[1..], double)[i] == MapPieces(ps, m, double)[i] {
      ResolveStep(ps[i], m, double);
    }
  }

  /** One pass over the map resolves, piece by piece, the placeholders of
      the pass's form. */
  lemma {:induction false} PassResolves(ps: seq<Piece>, m: Replacements, double: bool)
    requires forall i :: 0 <= i < |ps| ==> GoodPiece(ps[i])
    requires GoodReplacements(m)
    requires !double ==> NoDoubleOf(ps, m)
    ensures ApplyRequests(Render(ps), PassRequests(m, double)) == Render(MapPieces(ps, m, double))
    decreases |m|
  {
    if |m| == 0 {
      assert PassRequests(m, double) == [];
      assert MapPieces(ps, m, double) == ps;
    } else {
      var ps' := SubstPieces(ps, PassTarget(m[0].0, double), Str(m[0].1));
      PassHead(ps, m, double);
      PassHeadKeeps(ps, m, double);
      PassResolves(ps', m[1..], double);
      PassHeadResolves(ps, m, double);
    }
  }

  /** After the double-braced pass every piece is still well formed and no
      double-braced placeholder of a key in the map is left. */
  lemma DoublePassClears(ps: seq<Piece>, m: Replacements)
    requires forall i :: 0 <= i < |ps| ==> GoodPiece(ps[i])
    requires GoodReplacements(m)
    ensures var mid := MapPieces(ps, m, true);
      (forall i :: 0 <= i < |mid| ==> GoodPiece(mid[i])) && NoDoubleOf(mid, m)
  {
    var mid := MapPieces(ps, m, true);
    forall i | 0 <= i < |mid| ensures GoodPiece(mid[i]) {
      if ps[i].Double? {
        var r := Lookup(m, ps[i].key);
        if r.Some? {
          var j :| 0 <= j < |m| && m[j].0 == ps[i].key && r.value == Str(m[j].1);
        }
      }
    }
  }

  /** Applying the whole request list resolves every placeholder whose key
      is in the map, in either form, and leaves the rest of the text as it
      was: the double-braced pass consumes every `{{KEY}}` before the
      single-braced pass could leave its outer braces behind. */
  lemma RequestsResolvePlaceholders(ps: seq<Piece>, m: Replacements)
    requires forall i :: 0 <= i < |ps| ==> GoodPiece(ps[i])
    requires GoodReplacements(m)
    ensures ApplyRequests(Render(ps), BuildRequests(m))
         == Render(seq(|ps|, i requires 0 <= i < |ps| => Resolve(ps[i], m)))
  {
    ApplyAppend(Render(ps), PassRequests(m, true), PassRequests(m, false));
    PassResolves(ps, m, true);
    var mid := MapPieces(ps, m, true);
    DoublePassClears(ps, m);
    PassResolves(mid, m, false);
    assert MapPieces(mid, m, false) == seq(|ps|, i requires 0 <= i < |ps| => Resolve(ps[i], m));
  }

  /** The order matters: a single-braced request run first would leave the
      outer braces of a double-braced placeholder around the value. */
  lemma SingleFirstLeavesBraces()
    ensures ReplaceAll(DoubleBraced("K"), SingleBraced("K"), "v") == "{v}"
  {
    var t := DoubleBraced("K");
    assert t[0] == '{' && t[1] == '{';
    NotPrefixHere(t, "{K}", "v");
    assert t[1..] == "{K}" + "}";
    ReplaceTarget("{K}", "}", "v");
    assert ReplaceAll("}", "{K}", "v") == "}";
  }

  /** The request list, double-braced pass first, leaves just the value. */
  lemma DoubleFirstLeavesValue()
    ensures ApplyRequests(DoubleBraced("K"), BuildRequests([("K", VStr("v"))])) == "v"
  {
    var m: Replacements := [("K", VStr("v"))];
    var ps := [Double("K")];
    assert GoodReplacements(m);
    assert Lookup(m, "K") == Some("v");
    RequestsResolvePlaceholders(ps, m);
    assert Render(ps) == DoubleBraced("K") + Render([]);
    var rs := seq(1, i requires 0 <= i < 1 => Resolve(ps[i], m));
    assert rs == [Lit("v")];
    assert Render(rs) == "v" + Render([]);
  }
}
