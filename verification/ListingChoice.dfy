/** The choice of an ONU ID as provisioning makes it, from the text of the port's running configuration. */
module ListingChoice {
  import opened Options
  import opened Text
  import opened Registration
  import opened RegistrationLaws
  import opened PortListing

  /** `raw` is the text read, or None when the read raises. */
  method ChooseIdFromText(s: State, port: PonPort, serial: string, raw: Option<string>) returns (choice: Choice)
    ensures choice == TextChoice(s, port, serial, raw)
  {
    if raw.None? {
      return FreshFromDb(s, port);
    }
    var existing := ParseOnuIdBySerial(raw.value, serial);
    if existing.Some? {
      return Reuse(existing.value);
    }
    var next := ParseNextOnuId(raw.value);
    if next.None? {
      return Full;
    }
    if DbTaken(s, port, next.value) {
      return FreshFromDb(s, port);
    }
    choice := Fresh(next.value);
  }

  function TextChoice(s: State, port: PonPort, serial: string, raw: Option<string>): Choice {
    if raw.None? then FreshFromDb(s, port)
    else
      var known := IdOfSerial(Lines(raw.value), serial);
      if known.Some? then Reuse(known.value)
      else
        var k := LeastFree(UsedIds(Lines(raw.value)));
        if k.None? then Full
        else if DbTaken(s, port, k.value) then FreshFromDb(s, port)
        else Fresh(k.value)
  }

  predicate AllUpper(es: seq<Entry>) {
    forall k :: 0 <= k < |es| ==> Upper(es[k].serial) == es[k].serial
  }

  /** The text decides exactly as the registrations it lists do, and a read that raises as none at all. */
  lemma TextDecidesAsListing(s: State, port: PonPort, serial: string, ls: seq<PortLine>, raw: string)
    requires ls != [] && AllPrintable(ls) && raw == Unlines(PrintedLines(ls))
    requires AllUpper(EntriesOf(ls)) && Upper(serial) == serial
    ensures TextChoice(s, port, serial, Some(raw)) == ChooseId(s, port, serial, Shows(EntriesOf(ls)))
    ensures TextChoice(s, port, serial, None) == ChooseId(s, port, serial, ReadRaises)
  {
    PortRoundTrip(ls, raw, serial);
    assert UpperSerials(EntriesOf(ls)) == EntriesOf(ls);
  }

  /** A serial that the port's configuration lists and the database has lost is given its old ID. */
  lemma OrphanIsReused(s: State, port: PonPort, e: Entry, ls: seq<PortLine>, raw: string)
    requires Inv(s) && e in s.On(port) && !SerialInDb(s, e.serial)
    requires ls != [] && AllPrintable(ls) && raw == Unlines(PrintedLines(ls)) && EntriesOf(ls) == s.On(port)
    requires AllUpper(s.On(port))
    ensures TextChoice(s, port, e.serial, Some(raw)) == Reuse(e.id)
  {
    var listing := s.On(port);
    var i :| 0 <= i < |listing| && listing[i] == e;
    TextDecidesAsListing(s, port, e.serial, ls, raw);
    IdBySerialFinds(listing, e.serial);
    var k := IdBySerial(listing, e.serial).value;
    var f :| f in listing && f.id == k && f.serial == e.serial;
    SameIdSameEntry(listing, e, f);
  }
}
