/** The older entry store (`mdserver/database.py`): the same design as the
    current one with an eight-field entry (no `location`), a file holding a
    bare entry list, and upserts keyed on `domain_name` alone. */
module LegacyDatabase {
  import opened Wrappers
  import opened Json
  import opened Records
  import Allocator
  import Current = Database

  /** The eight fields of an entry, in the order `new_entry` lists them. */
  const EntryKeys: seq<string> :=
    ["domain_name", "domain_uuid", "domain_metadata", "mds_mac",
     "mds_ipv4", "mds_ipv6", "first_seen", "last_update"]

  /** `new_entry(...)`: a canonical entry with the given values. */
  function NewEntry(domainName: Val, domainUuid: Val, domainMetadata: Val,
                    mdsMac: Val, mdsIpv4: Val, mdsIpv6: Val): (r: Dict)
    ensures CheckKeys(EntryKeys, r).Pass?
    ensures r["first_seen"] == Null && r["last_update"] == Null
    ensures "domain_name" in r && r["domain_name"] == domainName
    ensures "domain_uuid" in r && r["domain_uuid"] == domainUuid
    ensures "domain_metadata" in r && r["domain_metadata"] == domainMetadata
    ensures "mds_mac" in r && r["mds_mac"] == mdsMac
    ensures "mds_ipv4" in r && r["mds_ipv4"] == mdsIpv4
    ensures "mds_ipv6" in r && r["mds_ipv6"] == mdsIpv6
  {
    assert EntryKeys[0] == "domain_name" && EntryKeys[1] == "domain_uuid" && EntryKeys[2] == "domain_metadata";
    assert EntryKeys[3] == "mds_mac" && EntryKeys[4] == "mds_ipv4" && EntryKeys[5] == "mds_ipv6";
    assert EntryKeys[6] == "first_seen" && EntryKeys[7] == "last_update";
    Current.FieldNamesDistinct();
    map k | k in EntryKeys ::
      Current.EntryField(k, Null, domainName, domainUuid, domainMetadata, mdsMac, mdsIpv4, mdsIpv6)
  }

  /** `new_entry()` with the defaults: all None but an empty metadata dict. */
  function Template(): Dict
  {
    NewEntry(Null, Null, Obj(map[]), Null, Null, Null)
  }

  /** The template has exactly the eight fields. */
  lemma TemplateConforms()
    ensures CheckKeys(EntryKeys, Template()).Pass?
  {
  }

  /** The template carries the eight fields. */
  lemma TemplateHasKeys()
    ensures HasKeys(EntryKeys, Template())
  {
    TemplateConforms();
    PassHasKeys(EntryKeys, Template());
  }

  /** An entry with the eight fields has the five index fields. */
  lemma EntryKeysCoverIndexKeys(d: Dict)
    requires HasKeys(EntryKeys, d)
    ensures HasKeys(IndexKeys, d)
  {
    assert EntryKeys[0] in d && EntryKeys[1] in d && EntryKeys[3] in d && EntryKeys[4] in d && EntryKeys[5] in d;
  }

  /** `_check_entry` for the eight-key schema. */
  function CheckEntry(d: Dict): (r: Outcome<SchemaError>)
    ensures r.Pass? <==> d.Keys == (set k | k in EntryKeys)
  {
    CheckKeys(EntryKeys, d)
  }

  /** Every entry carries the eight fields. */
  predicate Conforming(es: seq<Dict>)
  {
    forall i :: 0 <= i < |es| ==> HasKeys(EntryKeys, es[i])
  }

  /** The loading part of `__init__`: a missing file is an empty list;
      otherwise whatever the JSON document holds is walked as the entry
      list. */
  function LoadCore(contents: FileContents): (r: Result<seq<Dict>, DbError>)
    ensures contents.Missing? ==> r == Success([])
    ensures contents.Garbled? ==> r == Failure(Unparseable)
    ensures r.Failure? && contents.Document? ==> r.error == MalformedEntries
    ensures contents.Document? ==> r == EntryList(EntryKeys, contents.root)
  {
    match contents
    case Missing => Success([])
    case Garbled => Failure(Unparseable)
    case Document(root) => EntryList(EntryKeys, root)
  }

  /** Reading back what `store` wrote gives the same entries. */
  lemma StoreLoadRoundTrip(es: seq<Dict>)
    ensures LoadCore(Document(EntriesDocument(es))) == Success(es)
  {
    EntryListOfDocument(EntryKeys, es);
  }

  /** The rest of `__init__`: `_refresh_format`, then `_create_indices`. */
  method Prepare(raw: seq<Dict>) returns (core: seq<Dict>, indices: map<string, map<Val, nat>>)
    ensures core == Refreshed(EntryKeys, Template(), raw)
    ensures Conforming(core) && IndicesValid(indices, core)
  {
    TemplateHasKeys();
    core := RefreshAll(EntryKeys, Template(), raw);
    forall i | 0 <= i < |core| ensures HasKeys(IndexKeys, core[i]) {
      EntryKeysCoverIndexKeys(core[i]);
    }
    indices := BuildIndices(core);
  }

  /** The entry the store appends for a new candidate: `first_seen`
      stamped, nothing else added, so it still passes the check. */
  function Stamped(entry: Dict, firstStamp: int): (r: Dict)
    ensures r.Keys == entry.Keys + {FirstSeen}
    ensures r[FirstSeen] == Num(firstStamp)
  {
    entry[FirstSeen := Num(firstStamp)]
  }

  /** `Database`: the entry list (`db_core`) and the index per index key. */
  class Database {
    var dbfile: Option<string>
    var core: seq<Dict>
    var indices: map<string, map<Val, nat>>

    ghost predicate Valid()
      reads this
    {
      Conforming(core) && IndicesValid(indices, core)
    }

    /** The state `__init__` leaves behind. */
    constructor (dbfile: Option<string>, core: seq<Dict>, indices: map<string, map<Val, nat>>)
      requires Conforming(core) && IndicesValid(indices, core)
      ensures this.dbfile == dbfile && this.core == core && this.indices == indices
      ensures Valid()
    {
      this.dbfile := dbfile;
      this.core := core;
      this.indices := indices;
    }

    /** `_create_indices`. */
    method CreateIndices()
      requires Conforming(core)
      modifies this`indices
      ensures Valid()
    {
      forall i | 0 <= i < |core| ensures HasKeys(IndexKeys, core[i]) {
        EntryKeysCoverIndexKeys(core[i]);
      }
      indices := BuildIndices(core);
    }

    /** `query(key, needle)`: ValueError for a key that is not indexed,
        otherwise the last entry in list order holding `needle`, or None. */
    function Query(key: string, needle: Val): (r: Result<Option<Dict>, DbError>)
      reads this
      requires Valid()
      ensures key !in IndexKeys ==> r == Failure(InvalidKey(key))
      ensures key in IndexKeys ==> r == Success(QueryIn(core, key, needle))
    {
      QueryIndices(indices, core, key, needle)
    }

    /** `add_or_update_entry(entry)`, with the clock reading of a new entry
        as a parameter: ValueError, with nothing changed, for a candidate
        that fails the check; otherwise the upsert on `domain_name`, and the
        entry `query("domain_name", ...)` then returns. */
    method AddOrUpdateEntry(entry: Dict, firstStamp: int) returns (r: Result<Option<Dict>, DbError>)
      requires Valid()
      modifies this`core, this`indices
      ensures Valid()
      ensures CheckEntry(entry).Fail? ==> r == Failure(InvalidEntry(CheckEntry(entry).error)) && core == old(core)
      ensures CheckEntry(entry).Pass? ==>
                var u := UpsertWith(old(core), entry, DomainName, Stamped(entry, firstStamp));
                core == u.entries && r == Success(u.current)
    {
      var check := CheckEntry(entry);
      if check.Fail? {
        return Failure(InvalidEntry(check.error));
      }
      PassHasKeys(EntryKeys, entry);
      assert EntryKeys[0] == DomainName && DomainName in IndexKeys;
      var created := Stamped(entry, firstStamp);
      var next := UpsertInto(core, indices, entry, DomainName, created);
      UpsertKeepsKeys(EntryKeys, core, entry, DomainName, created);
      core := next;
      CreateIndices();
      r := Query(DomainName, entry[DomainName]);
    }

    /** `gen_ip`: the allocator run against this store's index for the
        network's family. An address it hands out is held by no entry. */
    method GenIp(net: Allocator.Network, exclude: seq<string>, offsets: seq<nat>, text: nat -> string)
      returns (r: Allocator.Allocation)
      requires Valid() && net.Valid()
      requires forall i :: 0 <= i < |offsets| ==> offsets[i] < net.Size()
      ensures r == Allocator.Allocate(Allocator.Unavailable(HeldValues(core, net.IndexKey()), exclude, net, text),
                                      net, offsets, text)
      ensures r.Allocated? ==> forall i :: !Holds(core, net.IndexKey(), Str(text(r.addr)), i)
    {
      var key := net.IndexKey();
      assert key in IndexKeys;
      IndexKeysAreHeld(indices[key], core, key);
      r := Allocator.GenIp(indices[key].Keys, net, exclude, offsets, text);
      Allocator.AllocatedIsSafe(HeldValues(core, key), net, exclude, offsets, text);
      assert forall v, i :: Holds(core, key, v, i) ==> core[i][key] in HeldValues(core, key);
    }

    /** `store(dbfile)`: nothing for a store opened without a file and
        given no name; otherwise the entry list for the named or the
        original file. Reading it back yields the same entries. */
    function Store(path: Option<string>): (w: StoreAction)
      reads this
      ensures w.NoOp? <==> (path.None? || path == Some("")) && dbfile.None?
      ensures w.Write? && path.Some? && path.value != "" ==> w.path == path.value
      ensures w.Write? && (path.None? || path == Some("")) ==> dbfile == Some(w.path)
      ensures w.Write? ==> LoadCore(Document(w.document)) == Success(core)
    {
      StoreLoadRoundTrip(core);
      match StoreTarget(path, dbfile)
      case None => NoOp
      case Some(p) => Write(p, EntriesDocument(core))
    }
  }

  /** `Database(dbfile)`: a store opened without a file name starts empty;
      otherwise the file's entry list is loaded, reformatted and indexed,
      or the error loading raises is returned. */
  method Open(dbfile: Option<string>, contents: FileContents) returns (r: Result<Database, DbError>)
    ensures var loaded := LoadCore(if dbfile.None? || dbfile == Some("") then Missing else contents);
            && (loaded.Failure? ==> r == Failure(loaded.error))
            && (loaded.Success? ==> && r.Success? && fresh(r.value) && r.value.Valid()
                                    && r.value.dbfile == dbfile
                                    && r.value.core == Refreshed(EntryKeys, Template(), loaded.value))
  {
    var loaded := LoadCore(if dbfile.None? || dbfile == Some("") then Missing else contents);
    match loaded
    case Failure(e) =>
      r := Failure(e);
    case Success(raw) =>
      var core, indices := Prepare(raw);
      var db := new Database(dbfile, core, indices);
      r := Success(db);
  }

  /** The current store's fields are `location` followed by the eight
      fields here. */
  lemma CurrentKeysExtend()
    ensures Current.EntryKeys == ["location"] + EntryKeys
    ensures "location" !in EntryKeys
  {
  }

  /** A file the older store wrote opens in the current store as the same
      entries under fresh metadata. */
  lemma MigratedFileOpens(es: seq<Dict>)
    ensures Current.LoadDb(Document(EntriesDocument(es))) == Success((Current.NewMetadata(), es))
  {
    EntryListOfDocument(Current.EntryKeys, es);
  }

  /** An entry the older store wrote is brought to the current format by
      adding `location` as None and changing nothing else. */
  lemma MigratedEntry(d: Dict)
    requires CheckEntry(d).Pass?
    ensures RefreshEntry(Current.EntryKeys, Current.Template(), d) == d["location" := Null]
  {
    Current.TemplateConforms();
    CurrentKeysExtend();
    OneKeyShort(EntryKeys, "location", d);
    MissingKeyFilled(Current.EntryKeys, Current.Template(), d, "location");
  }

  /** The entry of the allocation test: it passes the check, is named and
      holds no address. */
  function TestEntry(): (r: Dict)
    ensures Unaddressed(r)
  {
    var e := NewEntry(Str("test"), Str("aecb25c7-b581-4ecd-b60e-a9942ad18879"),
                      Obj(map["userdata_prefix" := Str("testing")]), Str("52:54:00:3a:cf:41"), Null, Null);
    StampedNewEntry(e, Str("test"), Num(1594887717));
    e[FirstSeen := Num(1594887717)][LastUpdate := Num(1594887717)]
  }

  /** A named entry from `new_entry` without addresses stays unaddressed
      once `first_seen` and `last_update` are set. */
  lemma StampedNewEntry(e: Dict, name: Val, stamp: Val)
    requires CheckEntry(e).Pass? && DomainName in e && e[DomainName] == name && name != Null
    requires "mds_ipv4" in e && e["mds_ipv4"] == Null && "mds_ipv6" in e && e["mds_ipv6"] == Null
    ensures Unaddressed(e[FirstSeen := stamp][LastUpdate := stamp])
  {
    assert EntryKeys[6] == FirstSeen && EntryKeys[7] == LastUpdate;
    assert |FirstSeen| != 8 && |LastUpdate| != 8 && DomainName[0] != LastUpdate[0] && |DomainName| != |FirstSeen|;
    UpdateKeepsPass(EntryKeys, e, FirstSeen, stamp);
    UpdateKeepsPass(EntryKeys, e[FirstSeen := stamp], LastUpdate, stamp);
  }

  const LastUpdate := "last_update"

  /** An entry, as the one of the allocation test, that passes the check,
      is named and holds no address. */
  predicate Unaddressed(entry: Dict)
  {
    CheckEntry(entry).Pass? && entry[DomainName] != Null
    && entry["mds_ipv4"] == Null && entry["mds_ipv6"] == Null
  }

  /** A store holding only such an entry holds no address. */
  lemma NothingHeld(entry: Dict, stamp: int)
    requires Unaddressed(entry)
    ensures HeldValues([Stamped(entry, stamp)], "mds_ipv4") == {}
    ensures HeldValues([Stamped(entry, stamp)], "mds_ipv6") == {}
  {
    var es := [Stamped(entry, stamp)];
    assert es[0]["mds_ipv4"] == Null && es[0]["mds_ipv6"] == Null;
  }

  /** The first half of the allocation test: a store opened without a
      file, with the entry added; it comes back stamped. */
  method AddToEmpty(entry: Dict, stamp: int) returns (db: Database, added: Result<Option<Dict>, DbError>)
    requires Unaddressed(entry)
    ensures fresh(db) && db.Valid() && db.core == [Stamped(entry, stamp)]
    ensures added == Success(Some(Stamped(entry, stamp)))
  {
    var start := Open(None, Missing);
    db := start.value;
    assert LastHolder([], DomainName, entry[DomainName]).None?;
    UpsertAppended([], entry, DomainName, Stamped(entry, stamp));
    added := db.AddOrUpdateEntry(entry, stamp);
  }

  /** The allocation test, for the test entry or any other entry that
      passes the check and holds no address: after it is added (it comes
      back without addresses), one IPv4 and one IPv6 address are drawn with
      the random offset fixed at 1500 and at 1500000. The IPv4 one is
      10.122.5.220; the IPv6 one is 2001:db8::16:e360, whatever injective
      text form `text6` gives IPv6 addresses. */
  method AllocationTest(entry: Dict, text6: nat -> string, stamp: int)
    returns (added: Result<Option<Dict>, DbError>, v4: Allocator.Allocation, v6: Allocator.Allocation)
    requires Unaddressed(entry)
    requires forall a, b :: text6(a) == text6(b) ==> a == b
    ensures added.Success? && added.value.Some?
    ensures "mds_ipv4" in added.value.value && added.value.value["mds_ipv4"] == Null
    ensures "mds_ipv6" in added.value.value && added.value.value["mds_ipv6"] == Null
    ensures v4 == Allocator.Allocated(Allocator.Quad(10, 122, 5, 220))
    ensures v6 == Allocator.Allocated(0x2001_0db8_0000_0000_0000_0000_0016_e360)
  {
    var db;
    db, added := AddToEmpty(entry, stamp);
    NothingHeld(entry, stamp);
    v4 := DrawIpv4(db);
    v6 := DrawIpv6(db, text6);
  }

  /** `gen_ip("10.122.0.0", "16")` on a store holding no IPv4 address,
      with the random offset fixed at 1500: 10.122.5.220, whose text
      Allocator.DottedExample gives. */
  method DrawIpv4(db: Database) returns (v4: Allocator.Allocation)
    requires db.Valid() && HeldValues(db.core, "mds_ipv4") == {}
    ensures v4 == Allocator.Allocated(Allocator.Quad(10, 122, 5, 220))
  {
    var net := Allocator.Network(Allocator.V4, Allocator.Quad(10, 122, 0, 0), 16);
    Allocator.TestNetwork();
    v4 := db.GenIp(net, [], [1500], Allocator.Dotted);
    assert net.IndexKey() == "mds_ipv4";
    assert v4 == Allocator.Allocate(Allocator.Unavailable({}, [], net, Allocator.Dotted), net, [1500], Allocator.Dotted);
    Allocator.Ipv4TestVector();
  }

  /** `gen_ip("2001:db8::", "32")` on a store holding no IPv6 address, with
      the random offset fixed at 1500000. */
  method DrawIpv6(db: Database, text6: nat -> string) returns (v6: Allocator.Allocation)
    requires db.Valid() && HeldValues(db.core, "mds_ipv6") == {}
    requires forall a, b :: text6(a) == text6(b) ==> a == b
    ensures v6 == Allocator.Allocated(0x2001_0db8_0000_0000_0000_0000_0016_e360)
  {
    Ipv6Network();
    v6 := db.GenIp(Ipv6Test, [], [1500000], text6);
    assert Ipv6Test.IndexKey() == "mds_ipv6";
    assert v6 == Allocator.Allocate(Allocator.Unavailable({}, [], Ipv6Test, text6), Ipv6Test, [1500000], text6);
    Ipv6Allocation(text6);
  }

  /** 2001:db8::/32, the IPv6 network of the allocation test. */
  const Ipv6Test := Allocator.Network(Allocator.V6, 0x2001_0db8_0000_0000_0000_0000_0000_0000, 32)

  /** 2001:db8::/32 is a valid network of 2^96 addresses. */
  lemma Ipv6Network()
    ensures Ipv6Test.Valid() && Ipv6Test.Size() == 0x1_0000_0000_0000_0000_0000_0000
  {
    Allocator.Pow2Values();
    assert 0x2001_0db8_0000_0000_0000_0000_0000_0000 % 0x1_0000_0000_0000_0000_0000_0000 == 0;
  }

  /** With nothing held or excluded and offset 1500000, the IPv6 network
      hands out its base address plus 1500000. */
  lemma Ipv6Allocation(text: nat -> string)
    requires forall a, b :: text(a) == text(b) ==> a == b
    ensures Ipv6Test.Valid()
    ensures Allocator.Allocate(Allocator.Unavailable({}, [], Ipv6Test, text), Ipv6Test, [1500000], text)
            == Allocator.Allocated(0x2001_0db8_0000_0000_0000_0000_0016_e360)
  {
    Ipv6Network();
    var u := Allocator.Unavailable({}, [], Ipv6Test, text);
    assert u == {Str(text(Ipv6Test.base)), Str(text(Ipv6Test.Broadcast()))};
    assert |u| <= 2;
    assert text(Ipv6Test.base + 1500000) != text(Ipv6Test.base);
    assert text(Ipv6Test.base + 1500000) != text(Ipv6Test.Broadcast());
  }
}
