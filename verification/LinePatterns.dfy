/**
 The regular expressions with which the CLI parsers read configuration lines.

 Each is a list of pieces separated by whitespace of any length. `Match` reads
 greedily from the left and never goes back; the lemmas show that nothing is
 lost by that, and that only the words of a line matter, never its spacing.
 */
module LinePatterns {
  import opened Options
  import opened Text

  predicate IsSpace(c: char) { c == ' ' || '\t' <= c <= '\r' }

  predicate NonSpace(c: char) { !IsSpace(c) }

  predicate AllSpace(s: string) {
    forall k :: 0 <= k < |s| ==> IsSpace(s[k])
  }

  predicate IsWord(s: string) {
    s != "" && forall k :: 0 <= k < |s| ==> NonSpace(s[k])
  }

  predicate AllWords(ws: seq<string>) {
    forall k :: 0 <= k < |ws| ==> IsWord(ws[k])
  }

  datatype Piece = Exact(text: string) | AnyCase(text: string) | Digits | Word

  type Pattern = seq<Piece>

  predicate GoodPiece(p: Piece) { p.Exact? || p.AnyCase? ==> IsWord(p.text) }

  predicate Good(p: Pattern) {
    p != [] && forall k :: 0 <= k < |p| ==> GoodPiece(p[k])
  }

  predicate AllGood(ps: seq<Pattern>) {
    forall k :: 0 <= k < |ps| ==> Good(ps[k])
  }

  // ---------------------------------------------------------------- matching

  /** Length of the longest start of `s` whose characters all satisfy `f`. */
  function Leading(s: string, f: char -> bool): (n: nat)
    ensures n <= |s| && (forall k :: 0 <= k < n ==> f(s[k])) && (n < |s| ==> !f(s[n]))
  {
    if s == "" || !f(s[0]) then 0 else 1 + Leading(s[1..], f)
  }

  /** How much of `s` a piece takes; zero when it does not match. */
  function Take(p: Piece, s: string): (n: nat)
    ensures n <= |s|
  {
    match p
    case Exact(t) => if t <= s then |t| else 0
    case AnyCase(t) => if |t| <= |s| && Lower(s[..|t|]) == Lower(t) then |t| else 0
    case Digits => Leading(s, IsDigit)
    case Word => Leading(s, NonSpace)
  }

  /** The text of every piece, when the pattern matches at the start of `s`. */
  function Match(p: Pattern, s: string): (r: Option<seq<string>>)
    requires p != []
    ensures r.Some? ==> Captured(p, r.value)
    decreases |p|
  {
    var n := Take(p[0], s);
    if n == 0 then None
    else if |p| == 1 then Some([s[..n]])
    else
      var rest := s[n..];
      var gap := Leading(rest, IsSpace);
      if gap == 0 then None
      else
        match Match(p[1..], rest[gap..])
        case None => None
        case Some(c) => Some([s[..n]] + c)
  }

  predicate Fits(p: Piece, w: string) {
    match p
    case Exact(t) => w == t
    case AnyCase(t) => Lower(w) == Lower(t)
    case Digits => IsNumeral(w)
    case Word => IsWord(w)
  }

  predicate Captured(p: Pattern, c: seq<string>) {
    |c| == |p| && forall k :: 0 <= k < |p| ==> Fits(p[k], c[k])
  }

  /** What the regular expression itself allows: every way to cut a start of `s` into pieces and gaps. */
  ghost predicate Derives(p: Pattern, s: string, c: seq<string>)
    requires p != []
    decreases |p|
  {
    && Captured(p, c) && c[0] <= s
    && (|p| == 1 || DerivesAfter(p, s[|c[0]|..], c))
  }

  ghost predicate DerivesAfter(p: Pattern, rest: string, c: seq<string>)
    requires |p| > 1 && |c| == |p|
    decreases |p|, 0
  {
    exists gap: nat :: 0 < gap <= |rest| && AllSpace(rest[..gap]) && Derives(p[1..], rest[gap..], c[1..])
  }

  lemma TakeFits(p: Piece, s: string, w: string)
    requires GoodPiece(p) && w <= s && Fits(p, w)
    ensures |w| <= Take(p, s) && w != ""
    ensures |w| < |s| && IsSpace(s[|w|]) ==> Take(p, s) == |w|
  {
    assert forall k :: 0 <= k < |w| ==> w[k] == s[k];
    var n := Take(p, s);
    assert s[..|w|] == w;
  }

  predicate AgreeButLast(longest: seq<string>, c: seq<string>) {
    && |longest| == |c| > 0
    && (forall k :: 0 <= k < |c| - 1 ==> longest[k] == c[k])
    && c[|c| - 1] <= longest[|c| - 1]
  }

  /** Greedy matching without going back is exact: it succeeds if and only if the regular expression allows some
      match, every allowed match has the same pieces but for the length of the last one, and there it takes the
      longest. */
  lemma {:induction false} MatchIsForced(p: Pattern, s: string, c: seq<string>)
    requires Good(p) && Derives(p, s, c)
    ensures
      var r := Match(p, s);
      r.Some? && AgreeButLast(r.value, c)
    decreases |p|, 1
  {
    if |p| > 1 {
      var rest := s[|c[0]|..];
      var gap := SomeGap(p, s, c);
      TailIsForced(p, rest, c, gap);
      MatchStep(p, s, |c[0]|, gap);
      ConsAgrees(c, Match(p[1..], rest[gap..]).value);
    } else {
      TakeFits(p[0], s, c[0]);
      PrefixOfLonger(c[0], Take(p[0], s), s);
    }
  }

  lemma SomeGap(p: Pattern, s: string, c: seq<string>) returns (gap: nat)
    requires Good(p) && |p| > 1 && Derives(p, s, c)
    ensures Take(p[0], s) == |c[0]| > 0 && s[..|c[0]|] == c[0]
    ensures
      var rest := s[|c[0]|..];
      0 < gap <= |rest| && AllSpace(rest[..gap]) && Derives(p[1..], rest[gap..], c[1..])
  {
    var rest := s[|c[0]|..];
    assert DerivesAfter(p, rest, c);
    gap :| 0 < gap <= |rest| && AllSpace(rest[..gap]) && Derives(p[1..], rest[gap..], c[1..]);
    assert rest[..gap][0] == s[|c[0]|];
    TakeFits(p[0], s, c[0]);
  }

  lemma MatchStep(p: Pattern, s: string, n: nat, gap: nat)
    requires |p| > 1 && Take(p[0], s) == n > 0 && Leading(s[n..], IsSpace) == gap > 0
    requires Match(p[1..], s[n..][gap..]).Some?
    ensures Match(p, s) == Some([s[..n]] + Match(p[1..], s[n..][gap..]).value)
  {
  }

  lemma PrefixOfLonger(w: string, n: nat, s: string)
    requires w <= s && |w| <= n <= |s|
    ensures w <= s[..n]
  {
  }

  lemma ConsAgrees(c: seq<string>, tail: seq<string>)
    requires |c| >= 2 && AgreeButLast(tail, c[1..])
    ensures AgreeButLast([c[0]] + tail, c)
  {
    assert forall k :: 0 <= k < |c| - 1 ==> c[1..][k] == c[k + 1];
  }

  lemma {:induction false} TailIsForced(p: Pattern, rest: string, c: seq<string>, gap: nat)
    requires Good(p) && |p| > 1 && |c| == |p|
    requires 0 < gap <= |rest| && AllSpace(rest[..gap]) && Derives(p[1..], rest[gap..], c[1..])
    ensures Leading(rest, IsSpace) == gap
    ensures
      var r := Match(p[1..], rest[gap..]);
      r.Some? && AgreeButLast(r.value, c[1..])
    decreases |p|, 0
  {
    GapIsForced(rest, gap, p[1], c[1]);
    assert Good(p[1..]);
    MatchIsForced(p[1..], rest[gap..], c[1..]);
  }

  lemma GapIsForced(s: string, gap: nat, p: Piece, w: string)
    requires gap <= |s| && AllSpace(s[..gap]) && GoodPiece(p) && Fits(p, w) && w <= s[gap..]
    ensures Leading(s, IsSpace) == gap
  {
    TakeFits(p, s[gap..], w);
    StartsNonSpace(p, w);
    assert s[gap..][0] == s[gap] == w[0];
    assert forall k :: 0 <= k < gap ==> s[..gap][k] == s[k];
  }

  lemma StartsNonSpace(p: Piece, w: string)
    requires GoodPiece(p) && Fits(p, w) && w != ""
    ensures NonSpace(w[0])
  {
    if p.AnyCase? { assert Lower(w)[0] == Lower(p.text)[0]; }
    if p.Exact? || p.AnyCase? { assert NonSpace(p.text[0]); }
  }

  lemma {:induction false} MatchIsDerived(p: Pattern, s: string)
    requires Good(p) && Match(p, s).Some?
    ensures Derives(p, s, Match(p, s).value)
    decreases |p|
  {
    if |p| > 1 {
      var n := Take(p[0], s);
      var rest := s[n..];
      var gap := Leading(rest, IsSpace);
      var tail := Match(p[1..], rest[gap..]).value;
      var c := Match(p, s).value;
      assert Good(p[1..]);
      MatchIsDerived(p[1..], rest[gap..]);
      assert c == [s[..n]] + tail;
      assert c[1..] == tail;
      assert forall k :: 0 <= k < gap ==> rest[..gap][k] == rest[k];
      assert DerivesAfter(p, rest, c);
    }
  }
}
