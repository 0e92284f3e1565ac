/** Cleaning the Telnet echo: a stack machine over characters, with backspace as pop. */
module Echo {
  import opened Text

  const BS: char := '\U{0008}'

  function EraseOnto(kept: string, text: string): string
    decreases |text|
  {
    if text == "" then kept
    else if text[0] == BS then EraseOnto(if kept == "" then "" else kept[..|kept| - 1], text[1..])
    else EraseOnto(kept + [text[0]], text[1..])
  }

  function Clean(text: string): string {
    EraseOnto("", text)
  }

  method CleanTelnetOutput(text: string) returns (cleaned: string)
    ensures cleaned == Clean(text)
  {
    var result := "";
    for i := 0 to |text|
      invariant EraseOnto(result, text[i..]) == Clean(text)
    {
      assert text[i..][1..] == text[i + 1..];
      var ch := text[i];
      if ch == BS {
        if result != "" {
          result := result[..|result| - 1];
        }
      } else {
        result := result + [ch];
      }
    }
    assert result == Clean(text);
    CleanHasNoBackspace(text);
    UnlinesOfLines(result);
    NoBackspaceInLines(result);

    var lines := Lines(result);
    var outLines := [];
    for i := 0 to |lines|
      invariant outLines == lines[..i]
    {
      // drop lines that still hold a backspace: there are none
      if BS !in lines[i] {
        outLines := outLines + [lines[i]];
      }
    }
    assert outLines == lines;
    cleaned := Unlines(outLines);
  }

  lemma {:induction false} NoBackspaceInLines(s: string)
    requires BS !in s
    ensures forall k :: 0 <= k < |Lines(s)| ==> BS !in Lines(s)[k]
  {
    if s != "" {
      NoBackspaceInLines(s[1..]);
    }
  }

  lemma {:induction false} EraseKeepsNoBackspace(kept: string, text: string)
    requires BS !in kept
    ensures BS !in EraseOnto(kept, text)
    decreases |text|
  {
    if text != "" {
      EraseKeepsNoBackspace(
        if text[0] != BS then kept + [text[0]] else if kept == "" then "" else kept[..|kept| - 1], text[1..]);
    }
  }

  lemma CleanHasNoBackspace(text: string)
    ensures BS !in Clean(text)
  {
    EraseKeepsNoBackspace("", text);
  }

  lemma {:induction false} EraseConcat(kept: string, a: string, b: string)
    ensures EraseOnto(kept, a + b) == EraseOnto(EraseOnto(kept, a), b)
    decreases |a|
  {
    if a == "" {
      assert a + b == b;
    } else {
      assert (a + b)[1..] == a[1..] + b;
      EraseConcat(
        if a[0] != BS then kept + [a[0]] else if kept == "" then "" else kept[..|kept| - 1], a[1..], b);
    }
  }

  lemma {:induction false} ErasePlain(kept: string, w: string)
    requires BS !in w
    ensures EraseOnto(kept, w) == kept + w
    decreases |w|
  {
    if w != "" {
      ErasePlain(kept + [w[0]], w[1..]);
      assert kept + w == kept + [w[0]] + w[1..];
    }
  }

  lemma CleanPlain(w: string)
    requires BS !in w
    ensures Clean(w) == w
  {
    ErasePlain("", w);
    assert "" + w == w;
  }

  lemma CleanIdempotent(text: string)
    ensures Clean(Clean(text)) == Clean(text)
  {
    CleanHasNoBackspace(text);
    CleanPlain(Clean(text));
  }

  /** Output may be cleaned in two pieces. */
  lemma CleanPrefixFirst(a: string, b: string)
    ensures Clean(a + b) == Clean(Clean(a) + b)
  {
    EraseConcat("", a, b);
    EraseConcat("", Clean(a), b);
    CleanIdempotent(a);
  }

  function Backspaces(n: nat): (s: string)
    ensures |s| == n
  {
    if n == 0 then "" else [BS] + Backspaces(n - 1)
  }

  lemma {:induction false} BackspacesPop(kept: string, n: nat)
    requires n <= |kept|
    ensures EraseOnto(kept, Backspaces(n)) == kept[..|kept| - n]
  {
    if n == 0 {
      assert kept[..|kept|] == kept;
    } else {
      assert Backspaces(n)[1..] == Backspaces(n - 1);
      var shorter := kept[..|kept| - 1];
      BackspacesPop(shorter, n - 1);
      assert shorter[..|shorter| - (n - 1)] == kept[..|kept| - n];
    }
  }

  /** A word followed by as many backspaces as it has characters leaves no trace, wherever it stands. */
  lemma WordErased(a: string, w: string, b: string)
    requires BS !in w
    ensures Clean(a + (w + Backspaces(|w|)) + b) == Clean(a + b)
  {
    var k := Clean(a);
    EraseConcat("", a + (w + Backspaces(|w|)), b);
    EraseConcat("", a, w + Backspaces(|w|));
    EraseConcat(k, w, Backspaces(|w|));
    ErasePlain(k, w);
    BackspacesPop(k + w, |w|);
    assert (k + w)[..|k|] == k;
    EraseConcat("", a, b);
  }

  lemma LeadingBackspaceDropped(b: string)
    ensures Clean([BS] + b) == Clean(b)
  {
    assert ([BS] + b)[1..] == b;
  }

  /** The two erasing rules and the identity on plain text. */
  ghost predicate ObeysEraseRules(f: string -> string) {
    && (forall b :: f([BS] + b) == f(b))
    && (forall a, c, b :: c != BS ==> f(a + [c, BS] + b) == f(a + b))
    && (forall w :: BS !in w ==> f(w) == w)
  }

  lemma CleanObeysEraseRules()
    ensures ObeysEraseRules(Clean)
  {
    forall b ensures Clean([BS] + b) == Clean(b) { LeadingBackspaceDropped(b); }
    forall a, c, b | c != BS ensures Clean(a + [c, BS] + b) == Clean(a + b) {
      WordErased(a, [c], b);
      assert Backspaces(1) == [BS] + Backspaces(0);
      assert [c] + Backspaces(1) == [c, BS];
    }
    forall w | BS !in w ensures Clean(w) == w { CleanPlain(w); }
  }

  /** Those rules determine the function: anything that obeys them is this clean. */
  lemma {:induction false} CleanIsTheOnlyOne(f: string -> string, text: string)
    requires ObeysEraseRules(f)
    ensures f(text) == Clean(text)
    decreases |text|
  {
    CleanObeysEraseRules();
    if BS in text {
      var i := FirstBackspace(text);
      var b := text[i + 1..];
      if i == 0 {
        assert text == [BS] + b;
        CleanIsTheOnlyOne(f, b);
      } else {
        var a, c := text[..i - 1], text[i - 1];
        assert text == a + [c, BS] + b;
        CleanIsTheOnlyOne(f, a + b);
      }
    }
  }

  lemma FirstBackspace(text: string) returns (i: nat)
    requires BS in text
    ensures i < |text| && text[i] == BS && BS !in text[..i]
  {
    i := 0;
    while text[i] != BS
      invariant i < |text| && BS !in text[..i]
      decreases |text| - i
    {
      assert text[..i + 1] == text[..i] + [text[i]];
      assert text == text[..i + 1] + text[i + 1..];
      i := i + 1;
    }
  }
}
