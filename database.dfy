/** The current entry store (`mdserver/database/database.py`): the `Database`
    schema helpers and the JSON-file backed `JsonDatabase`, whose document
    is `{"metadata": ..., "entries": [...]}`. Reading and writing the file
    is left to the caller: `Open` receives what was read, `Store` says what
    would be written. */
module Database {
  import opened Wrappers
  import opened Json
  import opened Records
  import Allocator

  /** The nine fields of an entry, in the order `new_entry` lists them. */
  const EntryKeys: seq<string> :=
    ["location", "domain_name", "domain_uuid", "domain_metadata", "mds_mac",
     "mds_ipv4", "mds_ipv6", "first_seen", "last_update"]

  /** The template has exactly the nine fields. */
  lemma TemplateConforms()
    ensures CheckKeys(EntryKeys, Template()).Pass?
  {
  }

  /** The template carries the nine fields. */
  lemma TemplateHasKeys()
    ensures HasKeys(EntryKeys, Template())
  {
    TemplateConforms();
    PassHasKeys(EntryKeys, Template());
  }

  /** `first_seen` is one of the nine fields and `last_seen` is not. */
  lemma StampKeys()
    ensures FirstSeen in EntryKeys && LastSeen !in EntryKeys
  {
    assert EntryKeys[7] == FirstSeen;
  }

  /** An entry with the nine fields has the five index fields. */
  lemma EntryKeysCoverIndexKeys(d: Dict)
    requires HasKeys(EntryKeys, d)
    ensures HasKeys(IndexKeys, d)
  {
    assert EntryKeys[1] in d && EntryKeys[2] in d && EntryKeys[4] in d && EntryKeys[5] in d && EntryKeys[6] in d;
  }

  /** `new_entry(...)`: a canonical entry with the given values, no time
      stamps yet. */
  function NewEntry(location: Val, domainName: Val, domainUuid: Val, domainMetadata: Val,
                    mdsMac: Val, mdsIpv4: Val, mdsIpv6: Val): (r: Dict)
    ensures CheckKeys(EntryKeys, r).Pass?
    ensures "location" in r && r["location"] == location
    ensures "domain_name" in r && r["domain_name"] == domainName
    ensures "domain_uuid" in r && r["domain_uuid"] == domainUuid
    ensures "domain_metadata" in r && r["domain_metadata"] == domainMetadata
    ensures "mds_mac" in r && r["mds_mac"] == mdsMac
    ensures "mds_ipv4" in r && r["mds_ipv4"] == mdsIpv4
    ensures "mds_ipv6" in r && r["mds_ipv6"] == mdsIpv6
    ensures "first_seen" in r && r["first_seen"] == Null
    ensures "last_update" in r && r["last_update"] == Null
  {
    assert EntryKeys[0] == "location" && EntryKeys[1] == "domain_name" && EntryKeys[2] == "domain_uuid";
    assert EntryKeys[3] == "domain_metadata" && EntryKeys[4] == "mds_mac" && EntryKeys[5] == "mds_ipv4";
    assert EntryKeys[6] == "mds_ipv6" && EntryKeys[7] == "first_seen" && EntryKeys[8] == "last_update";
    FieldNamesDistinct();
    map k | k in EntryKeys ::
      EntryField(k, location, domainName, domainUuid, domainMetadata, mdsMac, mdsIpv4, mdsIpv6)
  }

  /** The field names `EntryField` tells apart are different strings. */
  lemma FieldNamesDistinct()
    ensures "domain_name" != "location"
    ensures "domain_uuid" != "location" && "domain_uuid" != "domain_name"
    ensures "domain_metadata" != "location" && "domain_metadata" != "domain_name"
            && "domain_metadata" != "domain_uuid"
    ensures "mds_mac" != "location" && "mds_mac" != "domain_name" && "mds_mac" != "domain_uuid"
            && "mds_mac" != "domain_metadata"
    ensures "mds_ipv4" != "location" && "mds_ipv4" != "domain_name" && "mds_ipv4" != "domain_uuid"
            && "mds_ipv4" != "domain_metadata" && "mds_ipv4" != "mds_mac"
    ensures "mds_ipv6" != "location" && "mds_ipv6" != "domain_name" && "mds_ipv6" != "domain_uuid"
            && "mds_ipv6" != "domain_metadata" && "mds_ipv6" != "mds_mac" && "mds_ipv6" != "mds_ipv4"
    ensures "first_seen" != "location" && "first_seen" != "domain_name" && "first_seen" != "domain_uuid"
            && "first_seen" != "domain_metadata" && "first_seen" != "mds_mac" && "first_seen" != "mds_ipv4"
            && "first_seen" != "mds_ipv6"
    ensures "last_update" != "location" && "last_update" != "domain_name" && "last_update" != "domain_uuid"
            && "last_update" != "domain_metadata" && "last_update" != "mds_mac" && "last_update" != "mds_ipv4"
            && "last_update" != "mds_ipv6"
  {
  }

  /** The value `new_entry` gives the field `k`. */
  function EntryField(k: string, location: Val, domainName: Val, domainUuid: Val, domainMetadata: Val,
                      mdsMac: Val, mdsIpv4: Val, mdsIpv6: Val): Val
  {
    if k == "location" then location
    else if k == "domain_name" then domainName
    else if k == "domain_uuid" then domainUuid
    else if k == "domain_metadata" then domainMetadata
    else if k == "mds_mac" then mdsMac
    else if k == "mds_ipv4" then mdsIpv4
    else if k == "mds_ipv6" then mdsIpv6
    else Null
  }

  /** `new_entry()` with every argument left at its default: all None but
      an empty metadata dict. Reformatting fills missing fields from it. */
  function Template(): Dict
  {
    NewEntry(Null, Null, Null, Obj(map[]), Null, Null, Null)
  }

  /** `new_metadata()`: no time stamps and no locations. */
  function NewMetadata(): (r: Val)
    ensures r.Obj? && "locations" in r.fields && r.fields["locations"] == Obj(map[])
    ensures r.fields.Keys == {"initialised", "updated", "locations"}
    ensures r.fields["initialised"] == Null && r.fields["updated"] == Null
  {
    Obj(map["initialised" := Null, "updated" := Null, "locations" := Obj(map[])])
  }

  /** `new_location(hostname, version)`: a location record without stamps. */
  function NewLocation(hostname: Val, version: Val): (r: Dict)
    ensures r.Keys == {"hostname", "version", FirstSeen, LastSeen}
    ensures r["hostname"] == hostname && r["version"] == version
    ensures r[FirstSeen] == Null && r[LastSeen] == Null
  {
    map["hostname" := hostname, "version" := version, FirstSeen := Null, LastSeen := Null]
  }

  /** `_check_entry` for the nine-key schema. */
  function CheckEntry(d: Dict): (r: Outcome<SchemaError>)
    ensures r.Pass? <==> d.Keys == (set k | k in EntryKeys)
  {
    CheckKeys(EntryKeys, d)
  }

  /** `_load_dbfile` and its handling in `__init__`: the metadata and the
      raw entry list, before reformatting. */
  function LoadDb(contents: FileContents): (r: Result<(Val, seq<Dict>), DbError>)
    ensures contents.Missing? ==> r == Success((NewMetadata(), []))
    ensures r == Failure(UnsupportedFormat) <==>
              contents.Document? && !contents.root.Arr?
              && !(contents.root.Obj? && "metadata" in contents.root.fields && "entries" in contents.root.fields)
    ensures contents.Garbled? ==> r == Failure(Unparseable)
    ensures contents.Document? && contents.root.Arr? ==>
              && (r.Success? <==> EntryList(EntryKeys, contents.root).Success?)
              && (r.Success? ==> r.value == (NewMetadata(), EntryList(EntryKeys, contents.root).value))
    ensures contents.Document? && contents.root.Obj? ==>
              var fields := contents.root.fields;
              "metadata" in fields && "entries" in fields ==>
                && (r.Success? <==> EntryList(EntryKeys, fields["entries"]).Success?)
                && (r.Success? ==> r.value == (fields["metadata"], EntryList(EntryKeys, fields["entries"]).value))
    ensures r.Failure? && contents.Document? && r.error != UnsupportedFormat ==> r.error == MalformedEntries
  {
    match contents
    case Missing => Success((NewMetadata(), []))
    case Garbled => Failure(Unparseable)
    case Document(root) =>
      if root.Arr? then
        match EntryList(EntryKeys, root)
        case Success(es) => Success((NewMetadata(), es))
        case Failure(e) => Failure(e)
      else if root.Obj? && "metadata" in root.fields && "entries" in root.fields then
        match EntryList(EntryKeys, root.fields["entries"])
        case Success(es) => Success((root.fields["metadata"], es))
        case Failure(e) => Failure(e)
      else Failure(UnsupportedFormat)
  }

  /** The document `store` serialises. */
  function StoreDocument(meta: Val, es: seq<Dict>): Val
  {
    Obj(map["metadata" := meta, "entries" := EntriesDocument(es)])
  }

  /** Reading back what `store` wrote gives the same metadata and entries,
      up to the reformatting every load applies. */
  lemma StoreLoadRoundTrip(meta: Val, es: seq<Dict>)
    ensures LoadDb(Document(StoreDocument(meta, es))) == Success((meta, es))
  {
    EntryListOfDocument(EntryKeys, es);
  }

  /** The stored form of a location: `first_seen` and `last_seen` stamped. */
  function StampedLocation(location: Dict, firstStamp: int, lastStamp: int): Dict
  {
    location[FirstSeen := Num(firstStamp)][LastSeen := Num(lastStamp)]
  }

  /** The metadata after `add_or_update_location(name, location)`. An
      existing location is merged with the new record; a new one is
      stamped and inserted. Metadata without a `locations` dict raises, and
      so does a stored location that is not a dict once a field would be
      written into it. */
  function UpdateLocation(meta: Val, name: string, location: Dict, firstStamp: int, lastStamp: int)
    : (r: Result<Val, DbError>)
    ensures r.Failure? ==> r.error == MalformedMetadata
    ensures r.Success? ==> r.value.Obj? && "locations" in r.value.fields && r.value.fields["locations"].Obj?
  {
    if !meta.Obj? || "locations" !in meta.fields || !meta.fields["locations"].Obj? then Failure(MalformedMetadata)
    else
      var locations := meta.fields["locations"].fields;
      if name in locations then
        match locations[name]
        case Obj(stored) =>
          Success(Obj(meta.fields["locations" := Obj(locations[name := Obj(Merge(stored, location))])]))
        case _ =>
          if exists k :: k in location && Overwrites(location, k) then Failure(MalformedMetadata)
          else Success(meta)
      else
        Success(Obj(meta.fields["locations" := Obj(locations[name := Obj(StampedLocation(location, firstStamp, lastStamp))])]))
  }

  /** An existing location: fields the new record carries with a value
      other than None replace the stored ones, except `first_seen`; every
      other stored field, `first_seen` and `last_seen` included, stays as it
      was, so `last_seen` is only refreshed when the caller supplies it.
      Other locations and the rest of the metadata are untouched. */
  lemma ExistingLocationMerged(meta: Val, name: string, location: Dict, firstStamp: int, lastStamp: int)
    requires meta.Obj? && "locations" in meta.fields && meta.fields["locations"].Obj?
    requires name in meta.fields["locations"].fields && meta.fields["locations"].fields[name].Obj?
    ensures var r := UpdateLocation(meta, name, location, firstStamp, lastStamp);
            var before := meta.fields["locations"].fields;
            var stored := before[name].fields;
            && r.Success?
            && r.value.fields.Keys == meta.fields.Keys
            && (forall k :: k in meta.fields && k != "locations" ==> r.value.fields[k] == meta.fields[k])
            && r.value.fields["locations"].fields.Keys == before.Keys
            && (forall n :: n in before && n != name ==> r.value.fields["locations"].fields[n] == before[n])
            && var now := r.value.fields["locations"].fields[name];
               && now.Obj?
               && (forall k :: Overwrites(location, k) ==> k in now.fields && now.fields[k] == location[k])
               && (forall k :: k in stored && !Overwrites(location, k) ==> k in now.fields && now.fields[k] == stored[k])
               && (FirstSeen in stored ==> now.fields[FirstSeen] == stored[FirstSeen])
               && (LastSeen in stored && (LastSeen !in location || location[LastSeen] == Null)
                   ==> now.fields[LastSeen] == stored[LastSeen])
  {
    MergeKeepsUntouched(meta.fields["locations"].fields[name].fields, location);
  }

  /** A new location is inserted with both stamps set to the given clock
      readings and every other field as supplied. */
  lemma NewLocationStamped(meta: Val, name: string, location: Dict, firstStamp: int, lastStamp: int)
    requires meta.Obj? && "locations" in meta.fields && meta.fields["locations"].Obj?
    requires name !in meta.fields["locations"].fields
    ensures var r := UpdateLocation(meta, name, location, firstStamp, lastStamp);
            && r.Success?
            && r.value.fields["locations"].fields.Keys == meta.fields["locations"].fields.Keys + {name}
            && var now := r.value.fields["locations"].fields[name];
               && now.Obj?
               && now.fields[FirstSeen] == Num(firstStamp) && now.fields[LastSeen] == Num(lastStamp)
               && now.fields.Keys == location.Keys + {FirstSeen, LastSeen}
               && forall k :: k in location && k != FirstSeen && k != LastSeen ==> now.fields[k] == location[k]
  {
  }

  /** The entry the store appends for a new candidate: the candidate with
      `first_seen` and `last_seen` stamped. `last_seen` is not one of the
      nine fields. */
  function Stamped(entry: Dict, firstStamp: int, lastStamp: int): (r: Dict)
    ensures r.Keys == entry.Keys + {FirstSeen, LastSeen}
  {
    entry[FirstSeen := Num(firstStamp)][LastSeen := Num(lastStamp)]
  }

  /** An appended entry no longer passes the nine-key check, so the next
      load reformats it and drops its `last_seen`. */
  lemma StampedEntryIsReformatted(entry: Dict, firstStamp: int, lastStamp: int)
    requires CheckEntry(entry).Pass?
    ensures !CheckEntry(Stamped(entry, firstStamp, lastStamp)).Pass?
    ensures RefreshEntry(EntryKeys, Template(), Stamped(entry, firstStamp, lastStamp))
            == entry[FirstSeen := Num(firstStamp)]
  {
    TemplateConforms();
    StampKeys();
    StampedReformat(EntryKeys, Template(), entry, Num(firstStamp), Num(lastStamp));
  }

  /** Every entry carries the nine fields; one added by an upsert also
      carries `last_seen`. */
  predicate Conforming(es: seq<Dict>)
  {
    forall i :: 0 <= i < |es| ==> HasKeys(EntryKeys, es[i])
  }

  /** The work of `__init__` after loading: `_refresh_format`, then
      `_reindex`. */
  method Prepare(raw: seq<Dict>) returns (entries: seq<Dict>, indices: map<string, map<Val, nat>>)
    ensures entries == Refreshed(EntryKeys, Template(), raw)
    ensures Conforming(entries) && IndicesValid(indices, entries)
  {
    TemplateHasKeys();
    entries := RefreshAll(EntryKeys, Template(), raw);
    forall i | 0 <= i < |entries| ensures HasKeys(IndexKeys, entries[i]) {
      EntryKeysCoverIndexKeys(entries[i]);
    }
    indices := BuildIndices(entries);
  }

  /** `JsonDatabase`: the loaded metadata, the entry list, and the index
      per index key, each mapping a value to the position of the entry that
      holds it. */
  class JsonDatabase {
    var dbfile: Option<string>
    var meta: Val
    var entries: seq<Dict>
    var indices: map<string, map<Val, nat>>

    /** The entries conform and the indices describe the entry list. */
    ghost predicate Valid()
      reads this
    {
      Conforming(entries) && IndicesValid(indices, entries)
    }

    /** The state `__init__` leaves behind. */
    constructor (dbfile: Option<string>, meta: Val, entries: seq<Dict>, indices: map<string, map<Val, nat>>)
      requires Conforming(entries) && IndicesValid(indices, entries)
      ensures this.dbfile == dbfile && this.meta == meta && this.entries == entries && this.indices == indices
      ensures Valid()
    {
      this.dbfile := dbfile;
      this.meta := meta;
      this.entries := entries;
      this.indices := indices;
    }

    /** `_reindex`. */
    method Reindex()
      requires Conforming(entries)
      modifies this`indices
      ensures Valid()
    {
      forall i | 0 <= i < |entries| ensures HasKeys(IndexKeys, entries[i]) {
        EntryKeysCoverIndexKeys(entries[i]);
      }
      indices := BuildIndices(entries);
    }

    /** `query(key, needle)`: ValueError for a key that is not indexed,
        otherwise the last entry in list order holding `needle`, or None. */
    function Query(key: string, needle: Val): (r: Result<Option<Dict>, DbError>)
      reads this
      requires Valid()
      ensures key !in IndexKeys ==> r == Failure(InvalidKey(key))
      ensures key in IndexKeys ==> r == Success(QueryIn(entries, key, needle))
    {
      QueryIndices(indices, entries, key, needle)
    }

    /** `add_or_update_entry(entry, id_field)`, with the two clock readings
        of a new entry as parameters. ValueError, with nothing changed, for
        an identity field that is not indexed or a candidate that fails the
        check; otherwise the upsert, and the entry `query` then returns. */
    method AddOrUpdateEntry(entry: Dict, idField: string, firstStamp: int, lastStamp: int)
      returns (r: Result<Option<Dict>, DbError>)
      requires Valid()
      modifies this`entries, this`indices
      ensures Valid()
      ensures r.Failure? ==> entries == old(entries)
      ensures idField !in IndexKeys ==> r == Failure(InvalidKey(idField))
      ensures idField in IndexKeys && CheckEntry(entry).Fail? ==> r == Failure(InvalidEntry(CheckEntry(entry).error))
      ensures idField in IndexKeys && CheckEntry(entry).Pass? ==>
                var u := UpsertWith(old(entries), entry, idField, Stamped(entry, firstStamp, lastStamp));
                entries == u.entries && r == Success(u.current)
    {
      if idField !in IndexKeys {
        return Failure(InvalidKey(idField));
      }
      var check := CheckEntry(entry);
      if check.Fail? {
        return Failure(InvalidEntry(check.error));
      }
      PassHasKeys(EntryKeys, entry);
      var created := Stamped(entry, firstStamp, lastStamp);
      var next := UpsertInto(entries, indices, entry, idField, created);
      UpsertKeepsKeys(EntryKeys, entries, entry, idField, created);
      entries := next;
      Reindex();
      r := Query(idField, entry[idField]);
    }

    /** `add_or_update_location(name, location)`, with the two clock
        readings of a new location as parameters. */
    method AddOrUpdateLocation(name: string, location: Dict, firstStamp: int, lastStamp: int)
      returns (r: Outcome<DbError>)
      requires Valid()
      modifies this`meta
      ensures Valid()
      ensures match UpdateLocation(old(meta), name, location, firstStamp, lastStamp)
              case Success(m) => r == Pass && meta == m
              case Failure(e) => r == Fail(e) && meta == old(meta)
    {
      if !meta.Obj? || "locations" !in meta.fields || !meta.fields["locations"].Obj? {
        return Fail(MalformedMetadata);
      }
      var locations := meta.fields["locations"].fields;
      if name in locations {
        match locations[name]
        case Obj(stored) =>
          var merged := MergeInto(stored, location);
          meta := Obj(meta.fields["locations" := Obj(locations[name := Obj(merged)])]);
          r := Pass;
        case _ =>
          if exists k :: k in location && Overwrites(location, k) {
            return Fail(MalformedMetadata);
          }
          r := Pass;
      } else {
        var stamped := StampedLocation(location, firstStamp, lastStamp);
        meta := Obj(meta.fields["locations" := Obj(locations[name := Obj(stamped)])]);
        r := Pass;
      }
    }

    /** `gen_ip`: the allocator run against this store's index for the
        network's family. An address it hands out is held by no entry. */
    method GenIp(net: Allocator.Network, exclude: seq<string>, offsets: seq<nat>, text: nat -> string)
      returns (r: Allocator.Allocation)
      requires Valid() && net.Valid()
      requires forall i :: 0 <= i < |offsets| ==> offsets[i] < net.Size()
      ensures r == Allocator.Allocate(Allocator.Unavailable(HeldValues(entries, net.IndexKey()), exclude, net, text),
                                      net, offsets, text)
      ensures r.Allocated? ==> forall i :: !Holds(entries, net.IndexKey(), Str(text(r.addr)), i)
    {
      var key := net.IndexKey();
      assert key in IndexKeys;
      IndexKeysAreHeld(indices[key], entries, key);
      r := Allocator.GenIp(indices[key].Keys, net, exclude, offsets, text);
      Allocator.AllocatedIsSafe(HeldValues(entries, key), net, exclude, offsets, text);
      assert forall v, i :: Holds(entries, key, v, i) ==> entries[i][key] in HeldValues(entries, key);
    }

    /** `store(dbfile)`: nothing for a store opened without a file and
        given no name; otherwise the document for the named or the
        original file. Reading that document back yields this store. */
    function Store(path: Option<string>): (w: StoreAction)
      reads this
      ensures w.NoOp? <==> (path.None? || path == Some("")) && dbfile.None?
      ensures w.Write? && path.Some? && path.value != "" ==> w.path == path.value
      ensures w.Write? && (path.None? || path == Some("")) ==> dbfile == Some(w.path)
      ensures w.Write? ==> LoadDb(Document(w.document)) == Success((meta, entries))
    {
      StoreLoadRoundTrip(meta, entries);
      match StoreTarget(path, dbfile)
      case None => NoOp
      case Some(p) => Write(p, StoreDocument(meta, entries))
    }
  }

  /** `JsonDatabase(dbfile)`: a store opened without a file name starts
      empty; otherwise the file's contents are loaded, reformatted and
      indexed, or the error `__init__` raises is returned. */
  method Open(dbfile: Option<string>, contents: FileContents) returns (r: Result<JsonDatabase, DbError>)
    ensures var loaded := LoadDb(if dbfile.None? || dbfile == Some("") then Missing else contents);
            && (loaded.Failure? ==> r == Failure(loaded.error))
            && (loaded.Success? ==> && r.Success? && fresh(r.value) && r.value.Valid()
                                    && r.value.dbfile == dbfile && r.value.meta == loaded.value.0
                                    && r.value.entries == Refreshed(EntryKeys, Template(), loaded.value.1))
  {
    var loaded := LoadDb(if dbfile.None? || dbfile == Some("") then Missing else contents);
    match loaded
    case Failure(e) =>
      r := Failure(e);
    case Success(pair) =>
      var entries, indices := Prepare(pair.1);
      var db := new JsonDatabase(dbfile, pair.0, entries, indices);
      r := Success(db);
  }

  /** Every entry of an opened store has exactly the nine fields. */
  lemma OpenedEntriesConform(raw: seq<Dict>)
    ensures forall i :: 0 <= i < |raw| ==> CheckEntry(Refreshed(EntryKeys, Template(), raw)[i]).Pass?
  {
    RefreshedAllValid(EntryKeys, Template(), raw);
  }
}
