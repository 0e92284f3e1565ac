/**
 What the running configuration of a PON port says: the parsers that find a
 free ONU ID and the ID of a known serial, and the lines they read.
 */
module PortListing {
  import opened Options
  import opened Text
  import opened LinePatterns
  import opened LineWords
  import opened Registration

  const ONU: Piece := AnyCase("onu")
  const TYPE: Piece := AnyCase("type")
  const SN: Piece := AnyCase("sn")

  const ONU_TYPE: Pattern := [ONU, Digits, TYPE]
  const ONU_SERIAL: Pattern := [ONU, Digits, TYPE, Word, SN, Word]

  lemma PatternsAreGood()
    ensures Good(ONU_TYPE) && Good(ONU_SERIAL)
  {
  }

  /** ID on a line that registers an ONU. */
  function IdIn(line: string): Option<nat> {
    PatternsAreGood();
    match Search([ONU_TYPE], line)
    case Some(c) => Some(Value(c[1]))
    case None => None
  }

  /** ID and serial on a line that registers an ONU. */
  function SerialIn(line: string): Option<(nat, string)> {
    PatternsAreGood();
    match Search([ONU_SERIAL], line)
    case Some(c) => Some((Value(c[1]), c[5]))
    case None => None
  }

  function UsedIds(ls: seq<string>): set<nat> {
    set l | l in ls && IdIn(l).Some? :: IdIn(l).value
  }

  method ParseNextOnuId(raw: string) returns (id: Option<nat>)
    ensures id == LeastFree(UsedIds(Lines(raw)))
  {
    var lines := Lines(raw);
    var used: set<nat> := {};
    for k := 0 to |lines|
      invariant used == UsedIds(lines[..k])
    {
      assert lines[..k + 1] == lines[..k] + [lines[k]];
      var m := IdIn(lines[k]);
      if m.Some? {
        used := used + {m.value};
      }
    }
    assert lines[..|lines|] == lines;
    for i := 1 to MAX_ID + 1
      invariant LeastFree(used) == LeastFreeFrom(used, i)
    {
      if i !in used {
        return Some(i);
      }
    }
    id := None;
  }

  /** ID of the first line with the serial, compared without regard to case. */
  function IdOfSerial(ls: seq<string>, serial: string): Option<nat>
    decreases |ls|
  {
    if ls == [] then None
    else
      var m := SerialIn(ls[0]);
      if m.Some? && Upper(m.value.1) == Upper(serial) then Some(m.value.0) else IdOfSerial(ls[1..], serial)
  }

  method ParseOnuIdBySerial(raw: string, serial: string) returns (id: Option<nat>)
    ensures id == IdOfSerial(Lines(raw), serial)
  {
    var lines := Lines(raw);
    assert lines[0..] == lines;
    for k := 0 to |lines|
      invariant IdOfSerial(lines, serial) == IdOfSerial(lines[k..], serial)
    {
      var m := SerialIn(lines[k]);
      if m.Some? && Upper(m.value.1) == Upper(serial) {
        return Some(m.value.0);
      }
      assert lines[k..][1..] == lines[k + 1..];
    }
    id := None;
  }

  // ------------------------------------------------------------------ the listing

  /** A line of the listing: one the driver's registration command put there, or any line that registers nothing. */
  datatype PortLine =
    | Onu(pad: string, entry: Entry, trail: string)
    | Other(text: string)

  function EntryWords(e: Entry): seq<string> {
    ["onu", Decimal(e.id), "type", e.onuType, "sn", e.serial]
  }

  function Printed(l: PortLine): string {
    match l
    case Onu(pad, e, trail) => pad + Join(EntryWords(e)) + trail
    case Other(text) => text
  }

  /** Words are words, and a line is a line. */
  predicate Printable(l: PortLine) {
    match l
    case Onu(pad, e, trail) =>
      AllSpace(pad) && AllSpace(trail) && OneLine(pad) && OneLine(trail) && IsWord(e.onuType) && IsWord(e.serial)
    case Other(text) => OneLine(text) && IdIn(text) == None
  }

  predicate AllPrintable(ls: seq<PortLine>) {
    forall k :: 0 <= k < |ls| ==> Printable(ls[k])
  }

  function PrintedLines(ls: seq<PortLine>): (r: seq<string>)
    ensures |r| == |ls| && forall k :: 0 <= k < |ls| ==> r[k] == Printed(ls[k])
  {
    seq(|ls|, k requires 0 <= k < |ls| => Printed(ls[k]))
  }

  function EntriesOf(ls: seq<PortLine>): seq<Entry>
    decreases |ls|
  {
    if ls == [] then []
    else (if ls[0].Onu? then [ls[0].entry] else []) + EntriesOf(ls[1..])
  }

  lemma AnyCaseTakesItself(t: string)
    requires IsWord(t)
    ensures Whole(AnyCase(t), t)
  {
    assert t[..|t|] == t;
  }

  lemma EntryIsMatched(e: Entry)
    requires IsWord(e.onuType) && IsWord(e.serial)
    ensures AllWords(EntryWords(e))
    ensures forall k :: 0 <= k < 6 ==> Whole(ONU_SERIAL[k], EntryWords(e)[k])
  {
    NumberIsWord(e.id);
    assert Whole(Word, e.onuType) && Whole(Word, e.serial);
    AnyCaseTakesItself("onu");
    AnyCaseTakesItself("type");
    AnyCaseTakesItself("sn");
  }

  /** A printed registration is read back as printed. */
  lemma EntryIsRead(l: PortLine)
    requires l.Onu? && Printable(l)
    ensures IdIn(Printed(l)) == Some(l.entry.id)
    ensures SerialIn(Printed(l)) == Some((l.entry.id, l.entry.serial))
    ensures OneLine(Printed(l))
  {
    var ws := EntryWords(l.entry);
    PatternsAreGood();
    EntryIsMatched(l.entry);
    WordsOfPrinted(l.pad, ws, l.trail);
    JoinIsOneLine(ws);
    SearchByWords([ONU_TYPE], Printed(l));
    SearchByWords([ONU_SERIAL], Printed(l));
    MatchWhole(ONU_TYPE, ws);
    MatchWhole(ONU_SERIAL, ws);
    ValueOfDecimal(l.entry.id);
  }

  lemma {:induction false} LongerPattern(p: Pattern, q: Pattern, s: string)
    requires p != [] && Match(p + q, s).Some?
    ensures Match(p, s).Some?
    decreases |p|
  {
    if |p| > 1 {
      assert (p + q)[1..] == p[1..] + q;
      var rest := s[Take(p[0], s)..];
      LongerPattern(p[1..], q, rest[Leading(rest, IsSpace)..]);
    }
  }

  /** A line that registers no ID registers no serial. */
  lemma {:induction false} NoIdNoSerial(line: string)
    requires Search([ONU_TYPE], line).None?
    ensures Search([ONU_SERIAL], line).None?
    decreases |line|
  {
    if Match(ONU_SERIAL, line).Some? {
      assert ONU_SERIAL == ONU_TYPE + [Word, SN, Word];
      LongerPattern(ONU_TYPE, [Word, SN, Word], line);
    }
    if line != "" { NoIdNoSerial(line[1..]); }
  }

  /** The listing gives exactly the registered IDs. */
  lemma {:induction false} IdsAreRead(ls: seq<PortLine>)
    requires AllPrintable(ls)
    ensures UsedIds(PrintedLines(ls)) == IdsOf(EntriesOf(ls))
    decreases |ls|
  {
    if ls != [] {
      var rest := ls[1..];
      assert forall k :: 0 <= k < |rest| ==> rest[k] == ls[k + 1];
      IdsAreRead(rest);
      assert PrintedLines(ls) == [Printed(ls[0])] + PrintedLines(rest);
      UsedIdsCons(Printed(ls[0]), PrintedLines(rest));
      if ls[0].Onu? {
        EntryIsRead(ls[0]);
        IdsOfCons(ls[0].entry, EntriesOf(rest));
      } else {
        assert EntriesOf(ls) == EntriesOf(rest);
      }
    }
  }

  lemma UsedIdsCons(l: string, ls: seq<string>)
    ensures UsedIds([l] + ls) == UsedIds(ls) + if IdIn(l).Some? then {IdIn(l).value} else {}
  {
  }

  lemma IdsOfCons(e: Entry, es: seq<Entry>)
    ensures IdsOf([e] + es) == {e.id} + IdsOf(es)
  {
  }

  function UpperSerials(es: seq<Entry>): (r: seq<Entry>)
    ensures |r| == |es| && forall k :: 0 <= k < |es| ==> r[k] == es[k].(serial := Upper(es[k].serial))
  {
    seq(|es|, k requires 0 <= k < |es| => es[k].(serial := Upper(es[k].serial)))
  }

  lemma LookupCons(e: Entry, es: seq<Entry>, serial: string)
    ensures IdBySerial(UpperSerials([e] + es), serial)
         == if Upper(e.serial) == serial then Some(e.id) else IdBySerial(UpperSerials(es), serial)
  {
    assert UpperSerials([e] + es)[1..] == UpperSerials(es);
  }

  lemma IdOfSerialCons(l: string, ls: seq<string>, serial: string)
    ensures
      var m := SerialIn(l);
      IdOfSerial([l] + ls, serial)
      == if m.Some? && Upper(m.value.1) == Upper(serial) then Some(m.value.0) else IdOfSerial(ls, serial)
  {
    assert ([l] + ls)[1..] == ls;
  }

  /** The serial search gives what looking the normalised serial up among the registrations gives. */
  lemma {:induction false} SerialIsRead(ls: seq<PortLine>, serial: string)
    requires AllPrintable(ls)
    ensures IdOfSerial(PrintedLines(ls), serial) == IdBySerial(UpperSerials(EntriesOf(ls)), Upper(serial))
    decreases |ls|
  {
    if ls != [] {
      var rest := ls[1..];
      assert forall k :: 0 <= k < |rest| ==> rest[k] == ls[k + 1];
      SerialIsRead(rest, serial);
      assert PrintedLines(ls) == [Printed(ls[0])] + PrintedLines(rest);
      IdOfSerialCons(Printed(ls[0]), PrintedLines(rest), serial);
      if ls[0].Onu? {
        EntryIsRead(ls[0]);
        LookupCons(ls[0].entry, EntriesOf(rest), Upper(serial));
      } else {
        NoIdNoSerial(ls[0].text);
        assert EntriesOf(ls) == EntriesOf(rest);
      }
    }
  }

  lemma PrintedOneLine(ls: seq<PortLine>)
    requires AllPrintable(ls)
    ensures AllOneLine(PrintedLines(ls))
  {
    forall k | 0 <= k < |ls| ensures OneLine(Printed(ls[k])) {
      if ls[k].Onu? { EntryIsRead(ls[k]); }
    }
  }

  /** A port configuration, printed and read back, gives the next free ID and the ID of a serial that the
      registrations themselves give. */
  lemma PortRoundTrip(ls: seq<PortLine>, raw: string, serial: string)
    requires ls != [] && AllPrintable(ls) && raw == Unlines(PrintedLines(ls))
    ensures LeastFree(UsedIds(Lines(raw))) == LeastFree(IdsOf(EntriesOf(ls)))
    ensures IdOfSerial(Lines(raw), serial) == IdBySerial(UpperSerials(EntriesOf(ls)), Upper(serial))
  {
    PrintedOneLine(ls);
    LinesOfUnlines(PrintedLines(ls));
    IdsAreRead(ls);
    SerialIsRead(ls, serial);
  }

  /** On a port that registers no serial twice, ID `i` is found exactly for the serial registered under it, and
      nothing exactly when the serial is not registered. */
  lemma RegisteredIdIsFound(ls: seq<PortLine>, raw: string, serial: string, i: nat)
    requires ls != [] && AllPrintable(ls) && raw == Unlines(PrintedLines(ls))
    requires forall d, e :: d in EntriesOf(ls) && e in EntriesOf(ls) && Upper(d.serial) == Upper(e.serial) ==> d == e
    ensures IdOfSerial(Lines(raw), serial) == Some(i)
       <==> exists e :: e in EntriesOf(ls) && e.id == i && Upper(e.serial) == Upper(serial)
    ensures IdOfSerial(Lines(raw), serial) == None
       <==> forall e :: e in EntriesOf(ls) ==> Upper(e.serial) != Upper(serial)
  {
    PortRoundTrip(ls, raw, serial);
    LookupFinds(EntriesOf(ls), serial);
  }

  lemma {:induction false} LookupFinds(es: seq<Entry>, serial: string)
    ensures
      match IdBySerial(UpperSerials(es), Upper(serial))
      case Some(k) => exists e :: e in es && e.id == k && Upper(e.serial) == Upper(serial)
      case None => forall e :: e in es ==> Upper(e.serial) != Upper(serial)
    decreases |es|
  {
    if es != [] {
      assert es == [es[0]] + es[1..] && es[0] in es;
      LookupCons(es[0], es[1..], Upper(serial));
      LookupFinds(es[1..], serial);
    }
  }
}
