/**
 Searching a line with a pattern, and why only the line's words matter: every
 pattern gives on the text just what it gives on the list of words.
 */
module LineWords {
  import opened Options
  import opened Text
  import opened LinePatterns

  // ------------------------------------------------------------- search on text

  /** The first alternative that matches at the start. */
  function MatchFirst(ps: seq<Pattern>, s: string): (r: Option<seq<string>>)
    requires AllGood(ps)
    ensures r.Some? ==> exists k :: 0 <= k < |ps| && Captured(ps[k], r.value)
    decreases |ps|
  {
    if ps == [] then None
    else
      var r := Match(ps[0], s);
      if r.Some? then (assert Captured(ps[0], r.value); r)
      else
        var rest := MatchFirst(ps[1..], s);
        assert forall k :: 0 <= k < |ps| - 1 ==> ps[1..][k] == ps[k + 1];
        rest
  }

  /** The leftmost place at which an alternative matches. */
  function Search(ps: seq<Pattern>, s: string): (r: Option<seq<string>>)
    requires AllGood(ps)
    ensures r.Some? ==> exists k :: 0 <= k < |ps| && Captured(ps[k], r.value)
    decreases |s|
  {
    var r := MatchFirst(ps, s);
    if r.Some? || s == "" then r else Search(ps, s[1..])
  }

  function Strip(s: string): string
    decreases |s|
  {
    if s == "" then s
    else if IsSpace(s[0]) then Strip(s[1..])
    else if IsSpace(s[|s| - 1]) then Strip(s[..|s| - 1])
    else s
  }

  // ------------------------------------------------------------ search on words

  function Words(s: string): (ws: seq<string>)
    ensures AllWords(ws)
    decreases |s|
  {
    if s == "" then []
    else if IsSpace(s[0]) then Words(s[1..])
    else
      var n := Leading(s, NonSpace);
      [s[..n]] + Words(s[n..])
  }

  function MatchWords(p: Pattern, ws: seq<string>): Option<seq<string>>
    requires p != []
    decreases |p|
  {
    if ws == [] then None
    else
      var n := Take(p[0], ws[0]);
      if n == 0 then None
      else if |p| == 1 then Some([ws[0][..n]])
      else if n < |ws[0]| then None
      else
        match MatchWords(p[1..], ws[1..])
        case None => None
        case Some(c) => Some([ws[0][..n]] + c)
  }

  function MatchFirstWords(ps: seq<Pattern>, ws: seq<string>): Option<seq<string>>
    requires AllGood(ps)
    decreases |ps|
  {
    if ps == [] then None
    else
      var r := MatchWords(ps[0], ws);
      if r.Some? then r else MatchFirstWords(ps[1..], ws)
  }

  /** Without the first character. */
  function Shorten(ws: seq<string>): seq<string>
    requires ws != []
  {
    if |ws[0]| <= 1 then ws[1..] else [ws[0][1..]] + ws[1..]
  }

  function SearchWords(ps: seq<Pattern>, ws: seq<string>): Option<seq<string>>
    requires AllGood(ps)
    decreases |ws|, if ws == [] then 0 else |ws[0]|
  {
    if ws == [] then None
    else
      var r := MatchFirstWords(ps, ws);
      if r.Some? then r else SearchWords(ps, Shorten(ws))
  }

  // ------------------------------------------------------------- text and words

  lemma TakeInWord(p: Piece, s: string)
    requires GoodPiece(p) && s != "" && NonSpace(s[0])
    ensures var n := Leading(s, NonSpace); Take(p, s) == Take(p, s[..n])
  {
    var n := Leading(s, NonSpace);
    var w := s[..n];
    assert n > 0;
    match p
    case Exact(t) => ExactInWord(t, s, n);
    case AnyCase(t) => AnyCaseInWord(t, s, n);
    case Digits => LeadingInWord(s, n, IsDigit);
    case Word => LeadingInWord(s, n, NonSpace);
  }

  lemma ExactInWord(t: string, s: string, n: nat)
    requires IsWord(t) && n <= |s| && (n < |s| ==> IsSpace(s[n]))
    ensures t <= s <==> t <= s[..n]
  {
    if t <= s {
      assert forall k :: 0 <= k < |t| ==> t[k] == s[k];
      assert |t| <= n;
    }
  }

  lemma AnyCaseInWord(t: string, s: string, n: nat)
    requires IsWord(t) && n <= |s| && (n < |s| ==> IsSpace(s[n]))
    ensures Take(AnyCase(t), s) == Take(AnyCase(t), s[..n])
  {
    if |t| <= n {
      assert s[..n][..|t|] == s[..|t|];
    } else if |t| <= |s| {
      assert s[..|t|][n] == s[n];
      SpaceDiffers(s[..|t|], t, n);
    }
  }

  /** No case of a word has a space in it. */
  lemma SpaceDiffers(a: string, t: string, k: nat)
    requires k < |a| && IsSpace(a[k]) && IsWord(t)
    ensures Lower(a) != Lower(t)
  {
    assert Lower(a)[k] == a[k];
    if k < |t| {
      assert NonSpace(t[k]);
      assert Lower(t)[k] == LowerChar(t[k]);
    }
  }

  /** A run that stays within the first `n` characters is the same on them alone. */
  lemma LeadingInWord(s: string, n: nat, f: char -> bool)
    requires n <= |s| && (n < |s| ==> !f(s[n]))
    ensures Leading(s, f) == Leading(s[..n], f)
  {
    var a, b := Leading(s, f), Leading(s[..n], f);
    assert forall k :: 0 <= k < n ==> s[..n][k] == s[k];
  }

  lemma {:induction false} WordsSkipSpaces(s: string, n: nat)
    requires n <= |s| && AllSpace(s[..n])
    ensures Words(s) == Words(s[n..])
    decreases n
  {
    if n > 0 {
      assert s[..n][0] == s[0];
      assert s[1..][..n - 1] == s[..n][1..];
      WordsSkipSpaces(s[1..], n - 1);
      assert s[1..][n - 1..] == s[n..];
    } else {
      assert s[0..] == s;
    }
  }

  /** What the first word decides, and what it leaves to the others. */
  lemma MatchWordsCons(p: Pattern, w: string, tail: seq<string>)
    requires p != []
    ensures
      var n := Take(p[0], w);
      MatchWords(p, [w] + tail) ==
      if n == 0 || (|p| > 1 && n < |w|) then None
      else if |p| == 1 then Some([w[..n]])
      else Prepend(w[..n], MatchWords(p[1..], tail))
  {
    assert ([w] + tail)[1..] == tail;
  }

  function Prepend(w: string, r: Option<seq<string>>): Option<seq<string>> {
    if r.Some? then Some([w] + r.value) else None
  }

  lemma MatchCons(p: Pattern, s: string)
    requires p != []
    ensures
      var n := Take(p[0], s);
      var gap := Leading(s[n..], IsSpace);
      Match(p, s) ==
      if n == 0 || (|p| > 1 && gap == 0) then None
      else if |p| == 1 then Some([s[..n]])
      else Prepend(s[..n], Match(p[1..], s[n..][gap..]))
  {
  }

  /** Matching at the start of a word: text and words give the same. */
  lemma {:induction false} MatchByWords(p: Pattern, s: string)
    requires Good(p) && (s == "" || NonSpace(s[0]))
    ensures Match(p, s) == MatchWords(p, Words(s))
    decreases |p|, 2
  {
    if s != "" {
      var m := Leading(s, NonSpace);
      var w, n := s[..m], Take(p[0], s);
      TakeInWord(p[0], s);
      MatchCons(p, s);
      MatchWordsCons(p, w, Words(s[m..]));
      assert w[..n] == s[..n];
      if n > 0 && |p| > 1 {
        if n < m {
          assert s[n..][0] == s[n] && NonSpace(s[n]);
        } else {
          AfterWord(p, s, m);
        }
      }
    }
  }

  /** The pattern goes on after the whole first word. */
  lemma {:induction false} AfterWord(p: Pattern, s: string, m: nat)
    requires Good(p) && |p| > 1 && m <= |s| && (m < |s| ==> IsSpace(s[m]))
    ensures
      var rest := s[m..];
      var gap := Leading(rest, IsSpace);
      if gap == 0 then MatchWords(p[1..], Words(rest)) == None
      else Match(p[1..], rest[gap..]) == MatchWords(p[1..], Words(rest))
    decreases |p|, 1
  {
    AfterGap(p, s[m..], Leading(s[m..], IsSpace));
  }

  lemma {:induction false} AfterGap(p: Pattern, rest: string, gap: nat)
    requires Good(p) && |p| > 1 && gap == Leading(rest, IsSpace) && (rest == "" || IsSpace(rest[0]))
    ensures
      if gap == 0 then Words(rest) == [] else Match(p[1..], rest[gap..]) == MatchWords(p[1..], Words(rest))
    decreases |p|, 0
  {
    if gap > 0 {
      assert Good(p[1..]);
      assert gap < |rest| ==> rest[gap..][0] == rest[gap];
      assert AllSpace(rest[..gap]);
      WordsSkipSpaces(rest, gap);
      MatchByWords(p[1..], rest[gap..]);
    }
  }

  lemma {:induction false} MatchFirstByWords(ps: seq<Pattern>, s: string)
    requires AllGood(ps) && (s == "" || NonSpace(s[0]))
    ensures MatchFirst(ps, s) == MatchFirstWords(ps, Words(s))
    decreases |ps|
  {
    if ps != [] {
      MatchByWords(ps[0], s);
      MatchFirstByWords(ps[1..], s);
    }
  }

  lemma {:induction false} NoMatchAtSpace(ps: seq<Pattern>, s: string)
    requires AllGood(ps) && s != "" && IsSpace(s[0])
    ensures MatchFirst(ps, s) == None
    decreases |ps|
  {
    if ps != [] {
      var p := ps[0];
      TakesNoSpace(p[0], s);
      NoMatchAtSpace(ps[1..], s);
    }
  }

  lemma TakesNoSpace(p: Piece, s: string)
    requires GoodPiece(p) && s != "" && IsSpace(s[0])
    ensures Take(p, s) == 0
  {
    match p
    case Exact(t) => assert NonSpace(t[0]);
    case AnyCase(t) =>
      if |t| <= |s| {
        assert s[..|t|][0] == s[0];
        SpaceDiffers(s[..|t|], t, 0);
      }
    case _ =>
  }

  lemma WordsAfterOne(s: string)
    requires s != "" && NonSpace(s[0])
    ensures Words(s) != [] && Words(s[1..]) == Shorten(Words(s))
  {
    var n := Leading(s, NonSpace);
    assert Words(s) == [s[..n]] + Words(s[n..]);
    assert Words(s)[1..] == Words(s[n..]);
    if n > 1 {
      assert Leading(s[1..], NonSpace) == n - 1;
      assert s[1..][0] == s[1];
      assert s[1..][..n - 1] == s[..n][1..];
      assert s[1..][n - 1..] == s[n..];
    }
  }

  /** Searching a line gives what searching its words gives. */
  lemma {:induction false} SearchByWords(ps: seq<Pattern>, s: string)
    requires AllGood(ps)
    ensures Search(ps, s) == SearchWords(ps, Words(s))
    decreases |s|
  {
    if s == "" {
      MatchFirstByWords(ps, s);
      NothingInNothing(ps);
    } else if IsSpace(s[0]) {
      NoMatchAtSpace(ps, s);
      SearchByWords(ps, s[1..]);
    } else {
      MatchFirstByWords(ps, s);
      WordsAfterOne(s);
      SearchByWords(ps, s[1..]);
    }
  }

  lemma {:induction false} NothingInNothing(ps: seq<Pattern>)
    requires AllGood(ps)
    ensures MatchFirstWords(ps, []) == None
    decreases |ps|
  {
    if ps != [] { NothingInNothing(ps[1..]); }
  }

  lemma {:induction false} WordsBeforeSpaces(s: string, trail: string)
    requires AllSpace(trail)
    ensures Words(s + trail) == Words(s)
    decreases |s|
  {
    if s == "" {
      assert s + trail == trail && trail[..|trail|] == trail;
      WordsSkipSpaces(trail, |trail|);
    } else if IsSpace(s[0]) {
      assert (s + trail)[1..] == s[1..] + trail;
      WordsBeforeSpaces(s[1..], trail);
    } else {
      var n := Leading(s, NonSpace);
      assert Leading(s + trail, NonSpace) == n by {
        assert (s + trail)[..n] == s[..n];
        LeadingInWord(s + trail, n, NonSpace);
        LeadingInWord(s, n, NonSpace);
      }
      assert (s + trail)[..n] == s[..n] && (s + trail)[n..] == s[n..] + trail;
      WordsBeforeSpaces(s[n..], trail);
    }
  }

  lemma {:induction false} StripKeepsWords(s: string)
    ensures Words(Strip(s)) == Words(s)
    ensures Strip(s) == "" || (NonSpace(Strip(s)[0]) && NonSpace(Strip(s)[|Strip(s)| - 1]))
    decreases |s|
  {
    if s == "" {
    } else if IsSpace(s[0]) {
      StripKeepsWords(s[1..]);
    } else if IsSpace(s[|s| - 1]) {
      StripKeepsWords(s[..|s| - 1]);
      WordsBeforeSpaces(s[..|s| - 1], [s[|s| - 1]]);
      assert s[..|s| - 1] + [s[|s| - 1]] == s;
    }
  }

  // -------------------------------------------------------------------- printing

  function Join(ws: seq<string>): string
    decreases |ws|
  {
    if ws == [] then "" else if |ws| == 1 then ws[0] else ws[0] + " " + Join(ws[1..])
  }

  lemma {:induction false} WordsOfJoin(ws: seq<string>)
    requires AllWords(ws)
    ensures Words(Join(ws)) == ws
    decreases |ws|
  {
    if ws != [] {
      var w, s, tail := ws[0], Join(ws), if |ws| == 1 then "" else " " + Join(ws[1..]);
      assert s == w + tail;
      assert Leading(s, NonSpace) == |w| by {
        assert s[..|w|] == w;
        LeadingInWord(s, |w|, NonSpace);
      }
      assert s[..|w|] == w && s[|w|..] == tail;
      if |ws| > 1 {
        assert tail[1..] == Join(ws[1..]);
        WordsOfJoin(ws[1..]);
      }
      assert ws == [w] + ws[1..];
    }
  }

  /** A printed line has the words printed, whatever whitespace surrounds it. */
  lemma WordsOfPrinted(pad: string, ws: seq<string>, trail: string)
    requires AllSpace(pad) && AllWords(ws) && AllSpace(trail)
    ensures Words(pad + Join(ws) + trail) == ws
  {
    var s := Join(ws) + trail;
    assert pad + Join(ws) + trail == pad + s && (pad + s)[..|pad|] == pad && (pad + s)[|pad|..] == s;
    WordsSkipSpaces(pad + s, |pad|);
    WordsBeforeSpaces(Join(ws), trail);
    WordsOfJoin(ws);
  }

  lemma {:induction false} JoinIsOneLine(ws: seq<string>)
    requires AllWords(ws)
    ensures OneLine(Join(ws))
    decreases |ws|
  {
    if ws != [] {
      assert IsWord(ws[0]);
      if |ws| > 1 { JoinIsOneLine(ws[1..]); }
    }
  }

  // --------------------------------------------------------- deciding on words

  /** Taken to its end. */
  predicate Whole(p: Piece, w: string) { w != "" && Take(p, w) == |w| }

  lemma NumberIsWord(n: nat)
    ensures IsWord(Decimal(n)) && Whole(Digits, Decimal(n))
  {
    var d := Decimal(n);
    assert forall k :: 0 <= k < |d| ==> IsDigit(d[k]);
  }

  /** Words that fit the pattern one by one are matched and captured. */
  lemma {:induction false} MatchWhole(p: Pattern, ws: seq<string>)
    requires p != [] && |p| <= |ws| && forall k :: 0 <= k < |p| ==> Whole(p[k], ws[k])
    ensures MatchWords(p, ws) == Some(ws[..|p|])
    decreases |p|
  {
    var w := ws[0];
    assert Whole(p[0], w);
    assert w[..|w|] == w;
    if |p| > 1 {
      forall k | 0 <= k < |p| - 1 ensures Whole(p[1..][k], ws[1..][k]) {
        assert Whole(p[k + 1], ws[k + 1]);
      }
      MatchWhole(p[1..], ws[1..]);
      assert [w] + ws[1..][..|p| - 1] == ws[..|p|];
    } else {
      assert [w] == ws[..1];
    }
  }

  /** A match needs words enough, and all but the last taken whole. */
  lemma {:induction false} MatchNeeds(p: Pattern, ws: seq<string>)
    requires p != [] && MatchWords(p, ws).Some?
    ensures |p| <= |ws| && forall k :: 0 <= k < |p| - 1 ==> Whole(p[k], ws[k])
    decreases |p|
  {
    if |p| > 1 {
      MatchNeeds(p[1..], ws[1..]);
      forall k | 0 <= k < |p| - 1 ensures Whole(p[k], ws[k]) {
        if k > 0 { assert Whole(p[1..][k - 1], ws[1..][k - 1]); }
      }
    }
  }

  /** A place where a search may match: a tail of word `j`, then whole words. */
  ghost predicate Window(p: Pattern, ws: seq<string>, j: nat)
    requires p != []
  {
    && j + |p| <= |ws|
    && (exists o: nat :: o < |ws[j]| && Whole(p[0], ws[j][o..]))
    && forall k :: 1 <= k < |p| - 1 ==> Whole(p[k], ws[j + k])
  }

  lemma {:induction false} SearchNeeds(ps: seq<Pattern>, ws: seq<string>) returns (i: nat, j: nat)
    requires AllGood(ps) && AllWords(ws) && SearchWords(ps, ws).Some?
    requires forall k :: 0 <= k < |ps| ==> |ps[k]| > 1
    ensures i < |ps| && Window(ps[i], ws, j)
    decreases |ws|, if ws == [] then 0 else |ws[0]|
  {
    if MatchFirstWords(ps, ws).Some? {
      i := FirstNeeds(ps, ws);
      j := 0;
      assert IsWord(ws[0]);
      MatchNeeds(ps[i], ws);
      assert Whole(ps[i][0], ws[0]) && ws[0][0..] == ws[0];
    } else {
      var shorter := Shorten(ws);
      assert IsWord(ws[0]);
      assert AllWords(shorter);
      i, j := SearchNeeds(ps, shorter);
      j := WindowBefore(ps[i], ws, j);
    }
  }

  lemma WindowBefore(p: Pattern, ws: seq<string>, j: nat) returns (j': nat)
    requires ws != [] && ws[0] != "" && |p| > 1 && Window(p, Shorten(ws), j)
    ensures Window(p, ws, j')
  {
    var shorter := Shorten(ws);
    j' := if |ws[0]| <= 1 then j + 1 else j;
    var o: nat :| o < |shorter[j]| && Whole(p[0], shorter[j][o..]);
    if |ws[0]| > 1 && j == 0 {
      assert ws[0][1..][o..] == ws[0][o + 1..];
      assert Whole(p[0], ws[0][o + 1..]);
    } else {
      assert shorter[j] == ws[j'];
      assert Whole(p[0], ws[j'][o..]);
    }
    forall k | 1 <= k < |p| - 1 ensures Whole(p[k], ws[j' + k]) {
      assert ws[j' + k] == shorter[j + k];
    }
  }

  lemma {:induction false} FirstNeeds(ps: seq<Pattern>, ws: seq<string>) returns (i: nat)
    requires AllGood(ps) && MatchFirstWords(ps, ws).Some?
    ensures i < |ps| && MatchWords(ps[i], ws).Some?
    decreases |ps|
  {
    if MatchWords(ps[0], ws).Some? {
      i := 0;
    } else {
      i := FirstNeeds(ps[1..], ws);
      i := i + 1;
    }
  }

  // ------------------------------------------------------------------ substrings

  lemma StaysBefore(s: string, t: string, n: nat, i: nat)
    requires i < n <= |s| && IsWord(t) && (n < |s| ==> IsSpace(s[n])) && OccursAt(s, t, i)
    ensures i + |t| <= n
  {
    forall k | i <= k < i + |t| ensures NonSpace(s[k]) {
      assert s[i..i + |t|][k - i] == s[k];
    }
  }

  lemma OccursInHalf(s: string, t: string, n: nat, i: nat)
    requires n <= |s| && IsWord(t) && (n < |s| ==> IsSpace(s[n])) && OccursAt(s, t, i)
    ensures Contains(s[..n], t) || Contains(s[n..], t)
  {
    if i < n {
      StaysBefore(s, t, n, i);
      assert s[..n][i..i + |t|] == t;
      assert OccursAt(s[..n], t, i);
    } else {
      assert s[n..][i - n..i - n + |t|] == t;
      assert OccursAt(s[n..], t, i - n);
    }
  }

  lemma ContainsSplit(s: string, t: string, n: nat)
    requires n <= |s| && IsWord(t) && (n < |s| ==> IsSpace(s[n]))
    ensures Contains(s, t) <==> Contains(s[..n], t) || Contains(s[n..], t)
  {
    if Contains(s, t) {
      var i: nat :| i <= |s| && OccursAt(s, t, i);
      OccursInHalf(s, t, n, i);
    }
    if Contains(s[..n], t) {
      var i: nat :| i <= n && OccursAt(s[..n], t, i);
      ContainsSooner(s, t, n, i);
    }
    if Contains(s[n..], t) {
      var i: nat :| i <= |s| - n && OccursAt(s[n..], t, i);
      ContainsLater(s, t, n, i);
    }
  }

  lemma ContainsSooner(s: string, t: string, n: nat, i: nat)
    requires n <= |s| && OccursAt(s[..n], t, i)
    ensures Contains(s, t)
  {
    assert s[i..i + |t|] == s[..n][i..i + |t|];
    assert OccursAt(s, t, i);
  }

  lemma ContainsLater(s: string, t: string, n: nat, i: nat)
    requires n <= |s| && OccursAt(s[n..], t, i)
    ensures Contains(s, t)
  {
    assert s[n + i..n + i + |t|] == s[n..][i..i + |t|];
    assert OccursAt(s, t, n + i);
  }

  lemma ContainsAfterSpace(s: string, t: string)
    requires s != "" && IsWord(t) && IsSpace(s[0])
    ensures Contains(s, t) <==> Contains(s[1..], t)
  {
    if Contains(s, t) {
      var i: nat :| i <= |s| && OccursAt(s, t, i);
      assert t[0] == s[i];
      assert s[1..][i - 1..i - 1 + |t|] == t;
      assert OccursAt(s[1..], t, i - 1);
    }
    if Contains(s[1..], t) {
      var i: nat :| i <= |s| - 1 && OccursAt(s[1..], t, i);
      ContainsLater(s, t, 1, i);
    }
  }

  predicate AnyContains(ws: seq<string>, t: string) {
    exists k :: 0 <= k < |ws| && Contains(ws[k], t)
  }

  /** A word occurs in a line if and only if it occurs in one of the line's words. */
  lemma {:induction false} ContainsByWords(s: string, t: string)
    requires IsWord(t)
    ensures Contains(s, t) <==> AnyContains(Words(s), t)
    decreases |s|
  {
    if s == "" {
    } else if IsSpace(s[0]) {
      ContainsByWords(s[1..], t);
      ContainsAfterSpace(s, t);
    } else {
      var n := Leading(s, NonSpace);
      var ws, rest := Words(s), Words(s[n..]);
      ContainsByWords(s[n..], t);
      ContainsSplit(s, t, n);
      assert ws == [s[..n]] + rest;
      AnyContainsCons(s[..n], rest, t);
    }
  }

  lemma AnyContainsCons(w: string, ws: seq<string>, t: string)
    ensures AnyContains([w] + ws, t) <==> Contains(w, t) || AnyContains(ws, t)
  {
    var all := [w] + ws;
    assert all[0] == w;
    assert forall k :: 0 <= k < |ws| ==> ws[k] == all[k + 1];
  }
}
