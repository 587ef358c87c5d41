/** One account's catalog document (crates/api/src/catalog.rs, expiring.rs): a list of
    regions in the order they were first written, kept as if it were a map. */
module Catalog {
  import opened Prelude

  const TTL_SECONDS: nat := 6 * 60 * 60
  const FAILURE_TTL_SECONDS: nat := 15 * 60
  const DOCUMENT_VERSION: nat := 1

  datatype Entry = Entry(region: string, machineType: string, hourlyMicros: nat)

  datatype Reading = Offered(entries: seq<Entry>) | Failed(error: string)

  datatype Region = Region(name: string, readAt: nat, reading: Reading)

  datatype Document = Document(version: nat, readAt: nat, regions: seq<Region>, failure: Option<string>)

  /** A stored value and when it stops counting. */
  datatype Expiring = Expiring(expires: nat, document: Document)

  const EMPTY: Document := Document(DOCUMENT_VERSION, 0, [], None)

  // ── What a document offers, and when it is due ──

  function OfferedBy(region: Region): seq<Entry>
  {
    match region.reading
    case Offered(entries) => entries
    case Failed(_) => []
  }

  /** `entries`. */
  function Entries(regions: seq<Region>): seq<Entry>
  {
    if regions == [] then [] else Entries(regions[..|regions| - 1]) + OfferedBy(regions[|regions| - 1])
  }

  function OldestRead(regions: seq<Region>): nat
    requires regions != []
  {
    var last := regions[|regions| - 1].readAt;
    if |regions| == 1 then last else Min(OldestRead(regions[..|regions| - 1]), last)
  }

  /** `is_stale`. */
  predicate IsStale(document: Document, now: nat)
  {
    if document.failure.Some? then SaturatingSub(now, document.readAt) >= FAILURE_TTL_SECONDS
    else SaturatingSub(now, if document.regions == [] then document.readAt else OldestRead(document.regions)) >= TTL_SECONDS
  }

  lemma {:induction false} OldestIsLeast(regions: seq<Region>)
    requires regions != []
    ensures forall region :: region in regions ==> OldestRead(regions) <= region.readAt
    ensures exists region :: region in regions && region.readAt == OldestRead(regions)
  {
    var last := regions[|regions| - 1];
    assert last in regions;
    if |regions| > 1 {
      var init := regions[..|regions| - 1];
      OldestIsLeast(init);
      var region :| region in init && region.readAt == OldestRead(init);
      assert region in regions;
    }
  }

  /** A document with no failure is due exactly when some region, or with none the document,
      has reached its time to live; a failure when it has reached its own, much shorter one. */
  lemma StaleExactlyWhenAPartIs(document: Document, now: nat)
    ensures document.failure.None? && document.regions != [] ==>
      (IsStale(document, now) <==> exists region :: region in document.regions && region.readAt + TTL_SECONDS <= now)
    ensures document.failure.None? && document.regions == [] ==> (IsStale(document, now) <==> document.readAt + TTL_SECONDS <= now)
    ensures document.failure.Some? ==> (IsStale(document, now) <==> document.readAt + FAILURE_TTL_SECONDS <= now)
  {
    if document.regions != [] {
      OldestIsLeast(document.regions);
    }
  }

  // ── Writing regions ──

  /** Where the region of a name is, or the end. */
  function Position(regions: seq<Region>, name: string): (i: nat)
    ensures i <= |regions|
    ensures i < |regions| ==> regions[i].name == name
    ensures forall j :: 0 <= j < i ==> regions[j].name != name
  {
    if regions == [] then 0
    else
      var init := regions[..|regions| - 1];
      var i := Position(init, name);
      if i < |init| || regions[|init|].name == name then i else |regions|
  }

  /** One step of `record_account`'s grouping. */
  function Placed(regions: seq<Region>, entry: Entry, readAt: nat): seq<Region>
  {
    var i := Position(regions, entry.region);
    if i < |regions| && regions[i].reading.Offered?
    then regions[i := regions[i].(reading := Offered(regions[i].reading.entries + [entry]))]
    else regions + [Region(entry.region, readAt, Offered([entry]))]
  }

  function Grouped(entries: seq<Entry>, readAt: nat): seq<Region>
  {
    if entries == [] then [] else Placed(Grouped(entries[..|entries| - 1], readAt), entries[|entries| - 1], readAt)
  }

  /** One region's outcome over whatever was held for it. */
  function Merged(regions: seq<Region>, region: Region): seq<Region>
  {
    var i := Position(regions, region.name);
    if i < |regions| then regions[i := region] else regions + [region]
  }

  // ── Grouping is stable ──

  function OfRegion(entries: seq<Entry>, name: string): seq<Entry>
  {
    if entries == [] then []
    else
      var last := entries[|entries| - 1];
      OfRegion(entries[..|entries| - 1], name) + if last.region == name then [last] else []
  }

  /** The regions of a list of entries, in the order they are first seen. */
  function FirstSeen(entries: seq<Entry>): seq<string>
  {
    if entries == [] then []
    else
      var before := FirstSeen(entries[..|entries| - 1]);
      before + if entries[|entries| - 1].region in before then [] else [entries[|entries| - 1].region]
  }

  function Names(regions: seq<Region>): (names: seq<string>)
    ensures |names| == |regions|
    ensures forall i :: 0 <= i < |names| ==> names[i] == regions[i].name
  {
    seq(|regions|, i requires 0 <= i < |regions| => regions[i].name)
  }

  predicate Unique(regions: seq<Region>)
  {
    forall i, j :: 0 <= i < j < |regions| ==> regions[i].name != regions[j].name
  }

  /** A region as `record_account` leaves it. */
  predicate Holds(region: Region, entries: seq<Entry>, readAt: nat)
  {
    region == Region(region.name, readAt, Offered(OfRegion(entries, region.name)))
  }

  predicate GroupInv(regions: seq<Region>, entries: seq<Entry>, readAt: nat)
  {
    && Unique(regions)
    && Names(regions) == FirstSeen(entries)
    && forall region :: region in regions ==> Holds(region, entries, readAt)
  }

  lemma {:induction false} OfUnseen(entries: seq<Entry>, name: string)
    requires name !in FirstSeen(entries)
    ensures OfRegion(entries, name) == []
  {
    if entries != [] {
      OfUnseen(entries[..|entries| - 1], name);
    }
  }

  lemma {:induction false} GroupingIsStable(entries: seq<Entry>, readAt: nat)
    ensures GroupInv(Grouped(entries, readAt), entries, readAt)
  {
    if entries != [] {
      var init, last := entries[..|entries| - 1], entries[|entries| - 1];
      GroupingIsStable(init, readAt);
      PlacedGroups(Grouped(init, readAt), init, last, readAt);
      assert entries == init + [last];
    }
  }

  lemma SnocSeen(entries: seq<Entry>, entry: Entry, name: string)
    ensures OfRegion(entries + [entry], name) == OfRegion(entries, name) + if entry.region == name then [entry] else []
    ensures FirstSeen(entries + [entry]) == FirstSeen(entries) + if entry.region in FirstSeen(entries) then [] else [entry.region]
  {
    assert (entries + [entry])[..|entries|] == entries;
  }

  lemma PlacedGroups(regions: seq<Region>, entries: seq<Entry>, entry: Entry, readAt: nat)
    requires GroupInv(regions, entries, readAt)
    ensures GroupInv(Placed(regions, entry, readAt), entries + [entry], readAt)
  {
    hide Position, OfRegion, FirstSeen;
    var all := entries + [entry];
    var i := Position(regions, entry.region);
    var after := Placed(regions, entry, readAt);
    SnocSeen(entries, entry, entry.region);
    if i < |regions| {
      assert Holds(regions[i], entries, readAt);
      assert Names(regions)[i] == entry.region;
      assert Names(after) == Names(regions);
    } else {
      forall j | 0 <= j < |regions| ensures Names(regions)[j] != entry.region {}
      OfUnseen(entries, entry.region);
      assert Names(after) == Names(regions) + [entry.region];
    }
    forall j | 0 <= j < |after| ensures Holds(after[j], all, readAt) {
      SnocSeen(entries, entry, after[j].name);
      if j < |regions| {
        assert regions[j] in regions;
        assert Holds(regions[j], entries, readAt);
        if j != i {
          assert after[j] == regions[j] && regions[j].name != entry.region;
          assert OfRegion(entries, after[j].name) + [] == OfRegion(entries, after[j].name);
        }
      } else {
        assert [] + [entry] == [entry];
      }
    }
  }

  // ── Grouping loses nothing ──

  lemma EntriesSnoc(regions: seq<Region>, region: Region)
    ensures multiset(Entries(regions + [region])) == multiset(Entries(regions)) + multiset(OfferedBy(region))
  {
    assert (regions + [region])[..|regions|] == regions;
  }

  lemma BothSides(a: multiset<Entry>, b: multiset<Entry>, c: multiset<Entry>, d: multiset<Entry>, more: multiset<Entry>)
    requires a + b == c + d
    ensures a + more + b == c + more + d
  {
    assert a + more + b == a + b + more;
    assert c + more + d == c + d + more;
  }

  lemma Cancel(a: multiset<Entry>, b: multiset<Entry>, c: multiset<Entry>, d: multiset<Entry>)
    requires a + b == c + (b + d)
    ensures a == c + d
  {
    forall entry: Entry ensures a[entry] == (c + d)[entry] {
      assert (a + b)[entry] == (c + (b + d))[entry];
    }
  }

  lemma {:induction false} EntriesAt(regions: seq<Region>, i: nat, region: Region)
    requires i < |regions|
    ensures multiset(Entries(regions[i := region])) + multiset(OfferedBy(regions[i]))
         == multiset(Entries(regions)) + multiset(OfferedBy(region))
  {
    hide Entries, OfferedBy;
    var n := |regions| - 1;
    var init := regions[..n];
    assert regions == init + [regions[n]];
    EntriesSnoc(init, regions[n]);
    if i < n {
      EntriesAt(init, i, region);
      assert init[i] == regions[i];
      assert regions[i := region] == init[i := region] + [regions[n]];
      EntriesSnoc(init[i := region], regions[n]);
      BothSides(multiset(Entries(init[i := region])), multiset(OfferedBy(regions[i])), multiset(Entries(init)),
        multiset(OfferedBy(region)), multiset(OfferedBy(regions[n])));
    } else {
      assert regions[i := region] == init + [region];
      EntriesSnoc(init, region);
    }
  }

  lemma PlacedAdds(regions: seq<Region>, entry: Entry, readAt: nat)
    ensures multiset(Entries(Placed(regions, entry, readAt))) == multiset(Entries(regions)) + multiset{entry}
  {
    hide Position, Entries;
    var i := Position(regions, entry.region);
    if i < |regions| && regions[i].reading.Offered? {
      var held := regions[i].reading.entries;
      EntriesAt(regions, i, regions[i].(reading := Offered(held + [entry])));
      assert multiset(held + [entry]) == multiset(held) + multiset{entry};
      Cancel(multiset(Entries(Placed(regions, entry, readAt))), multiset(held), multiset(Entries(regions)), multiset{entry});
    } else {
      EntriesSnoc(regions, Region(entry.region, readAt, Offered([entry])));
    }
  }

  lemma GroupedSnoc(entries: seq<Entry>, entry: Entry, readAt: nat)
    ensures Grouped(entries + [entry], readAt) == Placed(Grouped(entries, readAt), entry, readAt)
    ensures Entries(Grouped([], readAt)) == []
  {
    assert (entries + [entry])[..|entries|] == entries;
  }

  /** `record_account` neither loses nor repeats an entry. */
  lemma {:induction false} GroupingIsAPermutation(entries: seq<Entry>, readAt: nat)
    ensures multiset(Entries(Grouped(entries, readAt))) == multiset(entries)
  {
    hide Placed, Entries, Grouped;
    if entries == [] {
      GroupedSnoc([], Entry("", "", 0), readAt);
    } else {
      var init, last := entries[..|entries| - 1], entries[|entries| - 1];
      GroupingIsAPermutation(init, readAt);
      PlacedAdds(Grouped(init, readAt), last, readAt);
      GroupedSnoc(init, last, readAt);
      assert entries == init + [last];
    }
  }

  // ── The document over a run ──

  datatype Write =
    | Account(entries: seq<Entry>, readAt: nat, now: nat)
    | OneRegion(region: Region, now: nat)
    | Failure(error: string, readAt: nat, now: nat)

  /** `read`: an expired document, or one of another layout, is absent. */
  function Read(stored: Option<Expiring>, now: nat): Option<Document>
  {
    if stored.Some? && stored.value.expires > now && stored.value.document.version == DOCUMENT_VERSION
    then Some(stored.value.document) else None
  }

  function Stored(document: Document, now: nat): Option<Expiring> { Some(Expiring(now + TTL_SECONDS, document)) }

  function Do(stored: Option<Expiring>, write: Write): Option<Expiring>
  {
    match write
    case Account(entries, readAt, now) => Stored(Document(DOCUMENT_VERSION, readAt, Grouped(entries, readAt), None), now)
    case OneRegion(region, now) =>
      var held := Read(stored, now);
      var document := if held.Some? then held.value else EMPTY;
      Stored(document.(readAt := region.readAt, failure := None, regions := Merged(document.regions, region)), now)
    case Failure(error, readAt, now) => Stored(Document(DOCUMENT_VERSION, readAt, [], Some(error)), now)
  }

  function Run(writes: seq<Write>): Option<Expiring>
  {
    if writes == [] then None else Do(Run(writes[..|writes| - 1]), writes[|writes| - 1])
  }

  function LastWrite(writes: seq<Write>): nat
    requires writes != []
  {
    writes[|writes| - 1].now
  }

  /** The map the document stands for: what was last recorded for each region, since the
      last account-wide write, or since nothing was written for a time to live. */
  function Expected(writes: seq<Write>): map<string, Region>
  {
    if writes == [] then map[]
    else
      var before := writes[..|writes| - 1];
      match writes[|writes| - 1]
      case Account(entries, readAt, _) => map name | name in FirstSeen(entries) :: Region(name, readAt, Offered(OfRegion(entries, name)))
      case OneRegion(region, now) =>
        var held := if before != [] && LastWrite(before) + TTL_SECONDS > now then Expected(before) else map[];
        held[region.name := region]
      case Failure(_, _, _) => map[]
  }

  /** The regions of that map, in the order they were first written. */
  function Order(writes: seq<Write>): seq<string>
  {
    if writes == [] then []
    else
      var before := writes[..|writes| - 1];
      match writes[|writes| - 1]
      case Account(entries, _, _) => FirstSeen(entries)
      case OneRegion(region, now) =>
        var held := if before != [] && LastWrite(before) + TTL_SECONDS > now then Order(before) else [];
        if region.name in held then held else held + [region.name]
      case Failure(_, _, _) => []
  }

  predicate Agrees(regions: seq<Region>, expected: map<string, Region>)
  {
    && Unique(regions)
    && (forall region :: region in regions ==> region.name in expected && expected[region.name] == region)
    && (forall name :: name in expected ==> name in Names(regions))
  }

  lemma MergedAgrees(regions: seq<Region>, expected: map<string, Region>, region: Region)
    requires Agrees(regions, expected)
    ensures Agrees(Merged(regions, region), expected[region.name := region])
    ensures Names(Merged(regions, region)) == if region.name in Names(regions) then Names(regions) else Names(regions) + [region.name]
  {
    hide Position;
    var i := Position(regions, region.name);
    var after := Merged(regions, region);
    assert i < |regions| ==> Names(regions)[i] == region.name;
    forall name | name in expected[region.name := region] ensures name in Names(after) {
      if name == region.name {
        assert Names(after)[i] == name;
      } else {
        var j :| 0 <= j < |regions| && Names(regions)[j] == name;
        assert Names(after)[j] == name;
      }
    }
    var updated := expected[region.name := region];
    forall j | 0 <= j < |after| ensures after[j].name in updated && updated[after[j].name] == after[j] {
      if j != i { assert regions[j] in regions; }
    }
  }

  lemma GroupedAgrees(regions: seq<Region>, entries: seq<Entry>, readAt: nat)
    requires GroupInv(regions, entries, readAt)
    ensures Agrees(regions, map name | name in FirstSeen(entries) :: Region(name, readAt, Offered(OfRegion(entries, name))))
  {
    forall region | region in regions ensures region.name in FirstSeen(entries) && Holds(region, entries, readAt) {
      var i :| 0 <= i < |regions| && regions[i] == region;
      assert Names(regions)[i] == region.name;
    }
  }

  function LastRead(writes: seq<Write>): nat
    requires writes != []
  {
    match writes[|writes| - 1]
    case Account(_, readAt, _) => readAt
    case OneRegion(region, _) => region.readAt
    case Failure(_, readAt, _) => readAt
  }

  function LastFailure(writes: seq<Write>): Option<string>
    requires writes != []
  {
    match writes[|writes| - 1]
    case Failure(error, _, _) => Some(error)
    case _ => None
  }

  predicate DocumentInv(writes: seq<Write>)
  {
    writes != [] ==>
      && Run(writes).Some?
      && Run(writes).value.expires == LastWrite(writes) + TTL_SECONDS
      && Run(writes).value.document.version == DOCUMENT_VERSION
      && Run(writes).value.document.readAt == LastRead(writes)
      && Run(writes).value.document.failure == LastFailure(writes)
      && Agrees(Run(writes).value.document.regions, Expected(writes))
      && Names(Run(writes).value.document.regions) == Order(writes)
  }

  /** After any writes, the stored document has each region once, in the order first written,
      holding what was last recorded for it and nothing else; it carries a failure exactly
      after one, and the time of its last reading. */
  lemma {:induction false} DocumentIsTheMap(writes: seq<Write>)
    ensures DocumentInv(writes)
  {
    hide Agrees, Merged, Grouped;
    if writes != [] {
      var before := writes[..|writes| - 1];
      DocumentIsTheMap(before);
      NoneAgrees();
      assert before == [] ==> Run(before) == None;
      match writes[|writes| - 1]
      case Account(entries, readAt, _) =>
        GroupingIsStable(entries, readAt);
        GroupedAgrees(Grouped(entries, readAt), entries, readAt);
      case OneRegion(region, now) =>
        if before != [] && LastWrite(before) + TTL_SECONDS > now {
          MergedAgrees(Run(before).value.document.regions, Expected(before), region);
        } else {
          MergedAgrees([], map[], region);
        }
      case Failure(_, _, _) =>
    }
  }

  /** When a document is due, in what was written: six hours after the oldest reading it stands
      for, or a quarter of an hour after the failure it carries. */
  lemma DueByWhatWasWritten(writes: seq<Write>, now: nat)
    requires writes != []
    ensures Run(writes).Some?
    ensures var last, expected := writes[|writes| - 1], Expected(writes);
      IsStale(Run(writes).value.document, now) ==
        if last.Failure? then now >= last.readAt + 900
        else if expected.Keys == {} then now >= LastRead(writes) + 21_600
        else exists name :: name in expected && now >= expected[name].readAt + 21_600
  {
    hide Run, Expected;
    DocumentIsTheMap(writes);
    var document, expected := Run(writes).value.document, Expected(writes);
    StaleExactlyWhenAPartIs(document, now);
    if document.regions == [] {
      assert forall name :: name in expected ==> name in Names(document.regions);
    } else {
      assert document.regions[0].name in expected;
    }
    forall name | name in expected ensures expected[name] in document.regions {
      var i: nat :| i < |document.regions| && Names(document.regions)[i] == name;
      assert document.regions[i] in document.regions;
    }
  }

  lemma NoneAgrees()
    ensures Agrees([], map[])
  {
  }

  // ── The handlers ──

  class Store {
    var stored: Option<Expiring>

    constructor ()
      ensures stored == None
    {
      stored := None;
    }

    /** `find` by name, in place. */
    method Find(regions: seq<Region>, name: string) returns (i: nat)
      ensures i == Position(regions, name)
    {
      i := 0;
      while i < |regions| && regions[i].name != name
        invariant i <= |regions|
        invariant forall j :: 0 <= j < i ==> regions[j].name != name
      {
        i := i + 1;
      }
    }

    method RecordRegion(region: Region, now: nat)
      modifies this
      ensures stored == Do(old(stored), OneRegion(region, now))
    {
      hide Position;
      var document := EMPTY;
      if stored.Some? && stored.value.expires > now && stored.value.document.version == DOCUMENT_VERSION {
        document := stored.value.document;
      }
      document := document.(readAt := region.readAt);
      document := document.(failure := None);
      var i := Find(document.regions, region.name);
      if i < |document.regions| {
        document := document.(regions := document.regions[i := region]);
      } else {
        document := document.(regions := document.regions + [region]);
      }
      stored := Some(Expiring(now + TTL_SECONDS, document));
    }

    method RecordAccount(entries: seq<Entry>, readAt: nat, now: nat)
      modifies this
      ensures stored == Do(old(stored), Account(entries, readAt, now))
    {
      hide Position;
      var regions: seq<Region> := [];
      for n := 0 to |entries|
        invariant regions == Grouped(entries[..n], readAt)
      {
        assert entries[..n + 1][..n] == entries[..n];
        var entry := entries[n];
        var i := Find(regions, entry.region);
        if i < |regions| && regions[i].reading.Offered? {
          var held := regions[i];
          regions := regions[i := held.(reading := Offered(held.reading.entries + [entry]))];
        } else {
          regions := regions + [Region(entry.region, readAt, Offered([entry]))];
        }
      }
      assert entries[..|entries|] == entries;
      stored := Some(Expiring(now + TTL_SECONDS, Document(DOCUMENT_VERSION, readAt, regions, None)));
    }

    method RecordFailure(error: string, readAt: nat, now: nat)
      modifies this
      ensures stored == Do(old(stored), Failure(error, readAt, now))
    {
      stored := Some(Expiring(now + TTL_SECONDS, Document(DOCUMENT_VERSION, readAt, [], Some(error))));
    }
  }
}
