# mdserver core, modelled in Dafny

mdserver is a metadata server for libvirt virtual machines. It keeps one
entry per domain in an entry store. It hands out IPv4 and IPv6 addresses to
domains at random from a configured network. It writes the dnsmasq DHCP and
DNS host files from the store.

This project models the following parts of mdserver:

- **The current entry store** (`mdserver/database/database.py`).
  - The nine-field entry schema, its check and the reformatting of entries
    that fail the check.
  - The JSON document `{"metadata": ..., "entries": [...]}`.
  - The per-field indices, the `query` that reads them and the
    create-or-merge `add_or_update_entry`.
  - Location records in the metadata, handled by `add_or_update_location`.
  - The address allocator `gen_ip`.
  - `store`.
- **The older store** (`mdserver/database.py`). It has an eight-field entry, a
  file that holds a bare entry list, and upserts keyed on `domain_name`.
- **The string helpers** of `mdserver/util.py`: prefix removal, `strtobool` and
  `strtobool_or_val`.
- **The two host-file generators** of `mdserver/dnsmasq.py`: `gen_dhcp_hosts`
  and `gen_dns_hosts`.

Files:

- `wrappers.dfy`: Option, Result and Outcome.
- `json.dfy`: JSON values, and Python truthiness.
- `text.dfy`: the Python string operations the core uses: `str()` of an int,
  `strip`, ASCII `lower`, `split` and `join`.
- `records.dfy`: what both stores share: the schema check and reformat, the
  field merge, the indices, the upsert, and the loading of entry lists.
- `allocator.dfy`: `gen_ip`, the network arithmetic and IPv4 dotted text.
- `database.dfy`: the current store, with class `JsonDatabase`.
- `legacy_database.dfy`: the older store, with class `Database`. It also holds
  the migration from the older store to the current one, and the allocation
  test of `tests.py`.
- `util.dfy` and `dnsmasq.dfy`.

The following become parameters:

- The file's contents when a store is opened (`FileContents`).
- The document a store would write (`StoreAction`).
- Clock readings.
- The values `random.randrange` returns, as a sequence of offsets.
- Python's `str()` of an IPv6 address. This is any injective text function.
- The store's iteration order for the host files.

An index maps a value to the position of the entry that holds it. Python's
index maps the value to the dict object itself.

## Model

| member | source | states |
|---|---|---|
| Records.StoreTarget | mdserver/database/database.py:408-421 | `store` writes to the path it is given unless that is None or empty. Otherwise it writes to the file the store was opened with. It does nothing when there is neither. |
| Records.FirstMissing | mdserver/database/database.py:162-171 | The first canonical key, in schema order, that an entry lacks. It is None exactly when every canonical key is present. |
| Records.CheckKeys | mdserver/database/database.py:162-171 | `_check_entry` passes exactly when the entry's key set equals the canonical key set. A missing key is reported as a canonical key the entry lacks. An unknown key is reported only when every canonical key is present. |
| Records.ReformatConforms | mdserver/database/database.py:173-186 | A reformatted entry passes the check. It keeps the canonical fields it had, takes the default for the fields it lacked, and drops the fields that are not canonical. |
| Records.ReformatValidIsIdentity | mdserver/database/database.py:173-186 | Reformatting an entry that already passes the check changes nothing. |
| Records.StampedReformat | mdserver/database/database.py:398-406 | An entry stamped with the non-canonical `last_seen` fails the check. The next refresh drops that stamp and keeps everything else. |
| Records.MissingKeyFilled | mdserver/database/database.py:398-406 | An entry that lacks exactly one canonical key is completed by the refresh with the template's value for that key. |
| Records.UpdateKeepsPass | mdserver/database/database.py:162-171 | Changing the value of a canonical field keeps an entry passing the check. |
| Records.OneKeyShort | mdserver/database.py:123-132 | An entry with exactly the older fields lacks exactly `location` among the current fields. |
| Records.Refreshed | mdserver/database/database.py:398-406 | `_refresh_format` keeps the number and order of entries, and each entry is kept or reformatted on its own. |
| Records.RefreshedAllValid | mdserver/database/database.py:398-406 | After `_refresh_format` every entry passes the check. Entries that were valid are unchanged. |
| Records.RefreshedValidIsIdentity | mdserver/database/database.py:398-406 | A list of valid entries is left exactly as it was. |
| Records.MergeInto | mdserver/database/database.py:447-449 | The update loop, over the candidate's keys in any order, produces the merged record. A None value and `first_seen` never overwrite a stored field. |
| Records.MergeKeepsKeys | mdserver/database/database.py:447-449 | A merge adds no key when the candidate's keys are among the stored ones, so a valid stored entry stays valid. |
| Records.MergeKeepsUntouched | mdserver/database/database.py:447-449 | After a merge, `first_seen` is unchanged, and so is every field the candidate leaves None or does not carry. Every other field the candidate carries takes the candidate's value. |
| Records.MergeIdempotent | mdserver/database/database.py:447-449 | Merging the same candidate twice gives the same record as merging it once. |
| Records.LastHolder | mdserver/database/database.py:391-396 | The position of the last entry, in list order, whose field holds the value. The comprehension's later entries win. None values are never held. |
| Records.LastHolderUnique | mdserver/database/database.py:391-396 | A holder with no holder after it is the last holder. |
| Records.BuildIndex | mdserver/database/database.py:391-396 | The index comprehension, written as a loop. Its keys are exactly the non-None values some entry holds, and each maps to that value's last holder. |
| Records.UpsertMatched | mdserver/database/database.py:436-458 | On a match, the entry count is unchanged and only the matched entry changes. That entry becomes the merge of the stored entry and the candidate, and it is the entry returned. |
| Records.UpsertAppended | mdserver/database/database.py:436-458 | With no match, the stamped candidate is appended and nothing before it changes. It is returned, unless its identity value is None, which is never indexed. |
| Records.UpsertKeepsKeys | mdserver/database/database.py:436-458 | An upsert keeps every entry carrying the canonical fields. |
| Records.UpsertKeepsFirstSeen | mdserver/database/database.py:436-458 | No upsert shrinks the list or changes the `first_seen` of an entry already stored. |
| Records.UpsertIdempotent | mdserver/database/database.py:436-458 | Repeating an upsert of the same candidate with a non-None identity value leaves the entries as the first upsert left them. |
| Records.PassHasKeys | mdserver/database/database.py:162-171 | An entry that passes the check carries every canonical key. |
| Records.AsEntry | mdserver/database/database.py:398-406 | A loaded dict is taken as it is. A non-dict element that survives the refresh becomes a fresh canonical entry. Anything else raises. |
| Records.AsEntries | mdserver/database/database.py:398-406 | A loaded list is accepted exactly when every element is, giving one entry per element in order. |
| Records.EntryList | mdserver/database/database.py:365-389 | The entries `for entry in ...` walks over. A list gives one entry per element, in order, accepted exactly when every element is. A string gives one fresh entry per character, and a dict one fresh entry per key, when none of them holds a canonical field name. Anything else is the malformed-entries error. |
| Records.EntriesDocument | mdserver/database/database.py:408-421 | The written entry list holds, at each position, the JSON object of the entry at that position. |
| Records.EntryListOfDocument | mdserver/database/database.py:408-421 | Loading a written entry list gives back the same entries. |
| Records.StringEntries | mdserver/database/database.py:398-406 | A JSON string in place of the entry list loads as one fresh entry per character, because no canonical key is one character long. |
| Records.EntryMetadata | mdserver/database/database.py:188-195 | `_get_entry_metadata` (the same as `_get_metadata` at mdserver/database.py:144-151): when `domain_metadata` is a dict, the value stored under the key, or None when the key is absent. A list or string raises exactly when it contains the key, and otherwise reads None. A missing `domain_metadata` raises. Every failure is the metadata error. |
| Records.EmptyMetadataReadsNone | mdserver/database/database.py:188-195 | An empty metadata dict reads as None for every key. |
| Records.BuildIndices | mdserver/database/database.py:391-396 | One valid index per index key. |
| Records.QueryIndices | mdserver/database/database.py:464-476 | A key that is not indexed gives ValueError. Otherwise the result is the last entry holding the needle, or None. |
| Records.IndexKeysAreHeld | mdserver/database/database.py:262-302 | The keys of an index, which `gen_ip` marks as allocated, are exactly the values held under its field. |
| Records.UpsertInto | mdserver/database/database.py:436-458 | Matching through the index and updating the stored dict in place gives the upsert's entry list. |
| Records.RefreshAll | mdserver/database/database.py:398-406 | The refresh loop produces the refreshed list, and every entry in it carries the canonical fields. |
| Database.TemplateConforms | mdserver/database/database.py:122-148 | `new_entry()` has exactly the nine canonical fields. |
| Database.TemplateHasKeys | mdserver/database/database.py:122-148 | `new_entry()` carries the nine fields. |
| Database.StampKeys | mdserver/database/database.py:122-148 | `first_seen` is a canonical field and `last_seen` is not. |
| Database.EntryKeysCoverIndexKeys | mdserver/database/database.py:87-93 | Every index key is one of the nine fields. |
| Database.NewEntry | mdserver/database/database.py:122-148 | `new_entry(...)` passes the check, holds each of its seven arguments under the field of that name, and has no time stamps. |
| Database.FieldNamesDistinct | mdserver/database/database.py:122-148 | The nine field names of an entry are pairwise different strings, so `new_entry` stores nine separate values. |
| Database.NewMetadata | mdserver/database/database.py:95-106 | `new_metadata()` has exactly `initialised` and `updated`, both None, and an empty `locations` dict. |
| Database.NewLocation | mdserver/database/database.py:108-120 | `new_location(hostname, version)` holds the given host name and version and two unset stamps, and nothing else. |
| Database.CheckEntry | mdserver/database/database.py:162-171 | The nine-field check passes exactly for entries whose keys are the nine fields. |
| Database.LoadDb | mdserver/database/database.py:365-389 | A missing file gives fresh metadata and no entries, and undecodable JSON the decoder's error. A bare list is loaded as its entries under fresh metadata. An object with `metadata` and `entries` is loaded as those entries under the stored metadata. Any other document is the unknown-format error, and an entry list that cannot be walked is the malformed-entries error. |
| Database.StoreLoadRoundTrip | mdserver/database/database.py:408-421 | Reading back the written document gives the same metadata and entries. |
| Database.UpdateLocation | mdserver/database/database.py:423-434 | `add_or_update_location` on well-formed metadata always leaves a `locations` dict. Its only error is malformed metadata. |
| Database.ExistingLocationMerged | mdserver/database/database.py:423-434 | An existing location is merged with the new record. Non-None fields replace stored ones, except `first_seen`. `last_seen` is refreshed only when the caller supplies it. Other locations and other metadata are untouched. |
| Database.NewLocationStamped | mdserver/database/database.py:423-434 | A new location is inserted with `first_seen` and `last_seen` set to the clock readings and every other field as supplied. |
| Database.Stamped | mdserver/database/database.py:453-455 | An appended entry gains exactly `first_seen` and `last_seen`. |
| Database.StampedEntryIsReformatted | mdserver/database/database.py:453-455 | An appended entry no longer passes the nine-field check. The next load reformats it back to the entry with `first_seen` set. |
| Database.Prepare | mdserver/database/database.py:344-363 | After loading, the store holds the refreshed entries and valid indices over them. |
| Database.JsonDatabase.constructor | mdserver/database/database.py:344-363 | The store holds the state `__init__` prepared. |
| Database.JsonDatabase.Reindex | mdserver/database/database.py:391-396 | `_reindex` leaves indices that describe the entry list. |
| Database.JsonDatabase.Query | mdserver/database/database.py:464-476 | `query` gives ValueError for a key that is not indexed. Otherwise it gives the last entry holding the needle, or None. |
| Database.JsonDatabase.AddOrUpdateEntry | mdserver/database/database.py:436-458 | An identity field that is not indexed, or a candidate failing the check, gives ValueError and changes nothing. Otherwise the entries become the upsert's, the indices stay valid, and the result is what `query` then returns. |
| Database.JsonDatabase.AddOrUpdateLocation | mdserver/database/database.py:423-434 | The metadata becomes `UpdateLocation`'s result, or is unchanged on error. |
| Database.JsonDatabase.GenIp | mdserver/database/database.py:262-302 | `gen_ip` is the allocator run against the family's index. An address it hands out is held by no entry. |
| Database.JsonDatabase.Store | mdserver/database/database.py:408-421 | `store` writes to the path it is given, or to the opened file when that path is None or empty, and does nothing when there is neither. Reading the written document back gives this store's metadata and entries. |
| Database.Open | mdserver/database/database.py:344-389 | A store opened without a file name, or with the empty name, starts as if the file were missing. Otherwise opening either raises the loading error, or yields a valid store of the refreshed entries under the loaded metadata. |
| Database.OpenedEntriesConform | mdserver/database/database.py:344-363 | Every entry of an opened store has exactly the nine fields. |
| LegacyDatabase.NewEntry | mdserver/database.py:97-121 | The older `new_entry(...)` passes the eight-field check, holds each of its six arguments under the field of that name, and has no stamps. |
| LegacyDatabase.TemplateConforms | mdserver/database.py:97-121 | The older template has exactly the eight fields. |
| LegacyDatabase.TemplateHasKeys | mdserver/database.py:97-121 | The older template carries the eight fields. |
| LegacyDatabase.EntryKeysCoverIndexKeys | mdserver/database.py:57-63 | Every index key is one of the eight fields. |
| LegacyDatabase.CheckEntry | mdserver/database.py:123-132 | The eight-field check passes exactly for entries whose keys are the eight fields. |
| LegacyDatabase.LoadCore | mdserver/database.py:65-80 | A missing file is an empty list. Undecodable JSON raises the decoder's error. Any document is walked as the entry list, as `EntryList` states: a string or a dict is accepted too, as fresh entries, and the only error is the malformed-entries error. |
| LegacyDatabase.StoreLoadRoundTrip | mdserver/database.py:153-165 | Reading back the written list gives the same entries. |
| LegacyDatabase.Prepare | mdserver/database.py:65-95 | After loading, the store holds the refreshed entries and valid indices over them. |
| LegacyDatabase.Stamped | mdserver/database.py:185-186 | An appended entry gains only `first_seen`, set to the clock reading. |
| LegacyDatabase.Database.constructor | mdserver/database.py:65-80 | The store holds the state `__init__` prepared. |
| LegacyDatabase.Database.CreateIndices | mdserver/database.py:82-85 | `_create_indices` leaves indices that describe the entry list. |
| LegacyDatabase.Database.Query | mdserver/database.py:195-207 | `query` gives ValueError for a key that is not indexed. Otherwise it gives the last entry holding the needle, or None. |
| LegacyDatabase.Database.AddOrUpdateEntry | mdserver/database.py:167-189 | A candidate failing the check gives ValueError and changes nothing. Otherwise the entries become the upsert on `domain_name`, and the result is what `query` then returns. |
| LegacyDatabase.Database.GenIp | mdserver/database.py:209-249 | `gen_ip` is the allocator run against the family's index. An address it hands out is held by no entry. |
| LegacyDatabase.Database.Store | mdserver/database.py:153-165 | `store` writes to the path it is given, or to the opened file when that path is None or empty, and does nothing when there is neither. Reading the written list back gives this store's entries. |
| LegacyDatabase.Open | mdserver/database.py:65-80 | A store opened without a file name, or with the empty name, starts empty. Otherwise opening either raises the loading error, or yields a valid store of the refreshed entries. |
| LegacyDatabase.CurrentKeysExtend | mdserver/database/database.py:122-148 | The current fields are `location` followed by the older eight. |
| LegacyDatabase.MigratedFileOpens | mdserver/database/database.py:365-389 | A file the older store wrote opens in the current store as the same entries under fresh metadata. |
| LegacyDatabase.MigratedEntry | mdserver/database/database.py:398-406 | An older entry becomes current by gaining `location` = None, with nothing else changed. |
| LegacyDatabase.TestEntry | tests.py:78-89 | The test's entry passes the eight-field check, is named and holds no address. |
| LegacyDatabase.StampedNewEntry | tests.py:78-89 | A named entry from `new_entry` without addresses stays unaddressed once `first_seen` and `last_update` are set. |
| LegacyDatabase.NothingHeld | tests.py:104-111 | A store holding only such an entry holds no IPv4 or IPv6 address. |
| LegacyDatabase.AddToEmpty | tests.py:104-111 | Adding the entry to a store opened without a file stores it stamped and returns it. |
| LegacyDatabase.AllocationTest | tests.py:104-117 | The added entry comes back without addresses. Offset 1500 in 10.122.0.0/16 gives 10.122.5.220. Offset 1500000 in 2001:db8::/32 gives 2001:db8::16:e360. |
| LegacyDatabase.DrawIpv4 | tests.py:112-113 | On a store holding no IPv4 address, offset 1500 in 10.122.0.0/16 gives 10.122.5.220. |
| LegacyDatabase.DrawIpv6 | tests.py:114-115 | On a store holding no IPv6 address, offset 1500000 in 2001:db8::/32 gives 2001:db8::16:e360. |
| LegacyDatabase.Ipv6Network | tests.py:115 | 2001:db8::/32 is a valid network of 2^96 addresses. |
| LegacyDatabase.Ipv6Allocation | tests.py:114-117 | With nothing held, offset 1500000 gives the base address plus 1500000. |
| Allocator.FirstFree | mdserver/database/database.py:287-300 | An address found is the base plus one of the drawn offsets, and is not unavailable. The offsets run out exactly when every drawn probe was unavailable. The loop never reports "no free address" itself. |
| Allocator.FirstFreeIsFirst | mdserver/database/database.py:287-300 | The address returned is the first drawn probe that is free. |
| Allocator.Pow2Succ | mdserver/database/database.py:272-290 | The size of a network, `num_addresses`, is a power of two: each bit less of prefix doubles it. |
| Allocator.GenIp | mdserver/database/database.py:262-302 | The loop builds `allocated_map` and then probes until an address is free. It returns None once the map covers the network. |
| Allocator.AllocatedIsSafe | mdserver/database/database.py:262-302 | A returned address lies in the network. It is not indexed and not excluded, and it is neither the network nor the broadcast address. |
| Allocator.NoFreeAddressExactly | mdserver/database/database.py:287-302 | `gen_ip` returns None exactly when the unavailable set is at least as large as the network. |
| Allocator.ProbeImageSize | mdserver/database/database.py:287-300 | The first n addresses, told apart by their text, give n different probe values. |
| Allocator.FreeOffsetExists | mdserver/database/database.py:287-300 | While the loop runs, some offset of the network is free. |
| Allocator.EveryOffsetDrawn | mdserver/database/database.py:287-302 | Once the random source has drawn every offset of the network, `gen_ip` has returned an address, unless the unavailable set already covered the network. |
| Allocator.OctetsTextInjective | mdserver/database/database.py:291 | Different numbers have different dotted-octet text. |
| Allocator.OctetsStep | mdserver/database/database.py:291 | One more octet below an address adds its decimal text after a dot. |
| Allocator.DottedInjective | mdserver/database/database.py:291 | Different IPv4 addresses have different `str()` text. |
| Allocator.DottedDistinct | mdserver/database/database.py:291 | Dotted text tells apart every network's addresses. |
| Allocator.DottedExample | tests.py:116 | The text of 10.122.5.220 is "10.122.5.220". |
| Allocator.TestNetwork | tests.py:113 | 10.122.0.0/16 is a valid network of 65536 addresses. |
| Allocator.Ipv4TestVector | tests.py:112-116 | With nothing held, offset 1500 in 10.122.0.0/16 gives 10.122.5.220. |
| Text.NatText | mdserver/dnsmasq.py:101 | `str(n)` is a non-empty run of digits with no leading zero. |
| Text.NatTextRoundTrip | mdserver/dnsmasq.py:101 | Reading `str(n)` back gives n. |
| Text.Strip | mdserver/dnsmasq.py:117 | `strip()` gives the infix that neither starts nor ends with whitespace, with only whitespace cut off. |
| Text.StripUnchanged | mdserver/dnsmasq.py:117 | A string with no whitespace at either end is its own `strip()`. |
| Text.Lower | mdserver/util.py:31 | `lower()` keeps the length and leaves no capital letter. |
| Text.LowerUnchanged | mdserver/dnsmasq.py:117 | A string without capital letters is its own `lower()`. |
| Text.Split | mdserver/dnsmasq.py:117 | `split(sep)` gives at least one part, and no part holds the separator. |
| Text.JoinSplit | mdserver/dnsmasq.py:117 | Splitting and joining back gives the text again. |
| Text.SplitJoin | mdserver/dnsmasq.py:149 | Joining parts that hold no separator and splitting again gives the parts. |
| Util.RemovePrefix | mdserver/util.py:9-19 | `_removeprefix` gives the rest of the text after the prefix when the text starts with it, and the text unchanged otherwise. Both branches of the source agree. |
| Util.RemoveAddedPrefix | mdserver/util.py:9-19 | Removing a prefix that was just added gives the text back. |
| Util.RemoveEmptyPrefix | mdserver/util.py:9-19 | Removing the empty prefix changes nothing. |
| Util.StrToBool | mdserver/util.py:27-37 | True exactly for a string whose lower-case form is a true word. False exactly for one whose lower-case form is a false word. ValueError for anything else, including non-strings. |
| Util.WordsDisjoint | mdserver/util.py:28-29 | No word is both true and false. |
| Util.StrToBoolIgnoresCase | mdserver/util.py:27-37 | A string and its lower-case form parse alike. |
| Util.StrToBoolReadsPythonText | mdserver/util.py:27-37 | `str(True)` and `str(False)` parse back to the boolean. |
| Util.StrToBoolOrVal | mdserver/util.py:40-49 | A boolean is returned as it is. A parsable value becomes its boolean. Anything else is returned unchanged, and nothing raises. |
| Util.StrToBoolOrValIsBool | mdserver/util.py:40-49 | The result is a boolean exactly when the input was one or parses as one. |
| Util.StrToBoolOrValIdempotent | mdserver/util.py:40-49 | Applying `strtobool_or_val` twice equals applying it once. |
| Dnsmasq.DecimalText | mdserver/dnsmasq.py:101 | `%d` formats exactly integers and booleans, an integer as its decimal text. |
| Dnsmasq.Add | mdserver/dnsmasq.py:133-136 | Python `+` concatenates strings. It raises exactly for pairings other than string+string, list+list and number+number. |
| Dnsmasq.DhcpEntryLines | mdserver/dnsmasq.py:95-107 | An entry raises exactly when it lacks a field, or has an address and a lease `%d` cannot format. Otherwise it writes one line per address, the IPv4 line first and the IPv6 line, in brackets, last. |
| Dnsmasq.DhcpLineFields | mdserver/dnsmasq.py:101-105 | A DHCP line cut at its commas gives back the MAC, `id:*`, the address, the name and the lease. |
| Dnsmasq.OrderTokens | mdserver/dnsmasq.py:116-117 | One token per comma-separated part of `entry_order`, stripped and lower-cased. |
| Dnsmasq.NamesConcat | mdserver/dnsmasq.py:137-146 | The names list of concatenated token lists is the concatenation of their names lists. |
| Dnsmasq.NamesAreConfigured | mdserver/dnsmasq.py:137-146 | There are no more names than tokens. Each name is the bare name, the prefixed name (only with a prefix set) or the qualified name (only with a domain set). |
| Dnsmasq.Prefixed | mdserver/dnsmasq.py:131-133 | Without a prefix, the name is the bare name. With a string prefix, the prefix is prepended. |
| Dnsmasq.Qualified | mdserver/dnsmasq.py:134-136 | Without a domain, the result is False. With one, it is `prefixed.domain`. |
| Dnsmasq.JoinNames | mdserver/dnsmasq.py:149 | `" ".join` succeeds exactly when every name is a string, and then joins them with spaces. |
| Dnsmasq.DnsEntryLines | mdserver/dnsmasq.py:127-155 | An entry raises exactly when it lacks a field, a name cannot be formed, or a non-string name would be joined. An empty names list writes nothing. Otherwise there is one line per address, IPv4 first, each holding the address and the joined names. |
| Dnsmasq.DnsLineFields | mdserver/dnsmasq.py:149-153 | A DNS line cut at its spaces gives back the address and then the names. |
| Dnsmasq.DefaultOrder | mdserver/config.py:81-84 | The default entry order is the single token `base`. |
| Dnsmasq.SingleToken | mdserver/dnsmasq.py:116-117 | An `entry_order` without a comma, already stripped and lower-case, is that one token. |
| Dnsmasq.DefaultConfigLines | mdserver/dnsmasq.py:116-155 | With the default configuration, each address gets a line holding the address and the bare name. |
| Dnsmasq.WrittenRaisesExactly | mdserver/dnsmasq.py:125-155 | A generator raises exactly when some entry does. |
| Dnsmasq.RaisedHasCause | mdserver/dnsmasq.py:125-155 | A file that raised has an entry that raised. |
| Dnsmasq.CauseRaises | mdserver/dnsmasq.py:125-155 | An entry that raises makes the file raise. |
| Dnsmasq.RaisedStays | mdserver/dnsmasq.py:125-155 | Entries after an exception write nothing. |
| Dnsmasq.DhcpLineCount | mdserver/dnsmasq.py:94-108 | Without an exception, the DHCP file has exactly one line per address held. |
| Dnsmasq.DnsLineCount | mdserver/dnsmasq.py:126-156 | Without an exception, the DNS file has at most one line per address held. |
| Dnsmasq.DhcpNeverRaises | mdserver/dnsmasq.py:95-107 | When every entry carries the four fields and the lease is an integer, the DHCP file never raises. |
| Dnsmasq.WrittenStep | mdserver/dnsmasq.py:95-107 | The file after one more entry is the file so far plus that entry's lines, or the file so far marked as raised. |
| Dnsmasq.DhcpLinesOf | mdserver/dnsmasq.py:95-107 | One iteration writes the entry's DHCP lines or raises, as `DhcpEntryLines` says. |
| Dnsmasq.GenDhcpHosts | mdserver/dnsmasq.py:81-108 | The loop writes exactly the DHCP file the entries determine, stopping at the first exception. |
| Dnsmasq.BuildNames | mdserver/dnsmasq.py:137-146 | The inner loop builds the names list of the tokens. |
| Dnsmasq.NamesStep | mdserver/dnsmasq.py:138-146 | One more token appends its names to the list. |
| Dnsmasq.DnsLinesOf | mdserver/dnsmasq.py:128-155 | One iteration writes the entry's DNS lines or raises, as `DnsEntryLines` says. |
| Dnsmasq.GenDnsHosts | mdserver/dnsmasq.py:110-156 | The loop writes exactly the DNS file the entries and the configured order, prefix and domain determine. |

## Left out

- Reading and writing files (`json.load`, `json.dump`, `open`, `fcntl` locking), logging, and the `lcount` line counters. The loaded contents and the written document are values instead.
- Database.JsonDatabase.Store: for a store opened with the empty file name, `store()` answers a write to that name. The source's `os.rename` to the empty name fails there, and that error is not modelled.
- LegacyDatabase.Database.Store: the same write to the empty file name, whose `os.rename` failure is not modelled.
- Time stamps are integer clock readings passed in. Python's `time.time()` gives floats.
- JSON floats in general: `Json.Val` holds integers only, so a stored float, such as a time stamp written by the source, is not modelled.
- Python's equality across types (`1 == 1.0 == True`) and unhashable values (lists, dicts) used as index keys: index keys are compared as JSON values.
- Aliasing: Python hands out and stores the same dict objects, so a caller mutating a returned entry mutates the store. The model returns values.
- `__iter__` of both stores: the host generators take the entry sequence directly.
- `del_entry` of both stores: the source body does nothing.
- The text of IPv6 addresses (`str(IPv6Address)`): any injective function is accepted as a parameter.
- The re-check of the store's index inside the `gen_ip` loop: every indexed value is already unavailable, so that branch is never taken.
- Allocator.GenIp: `OffsetsExhausted` is returned when the supplied random offsets run out. The source draws forever.
- Network parsing by `ipaddress.ip_network` and the `random.seed` call: networks are given parsed and valid.
- Dnsmasq.Show: the rendering of a list or dict inside a host line is a placeholder, not Python's `repr`.
- Text.Lower: ASCII letters only. This is exact for the boolean words and the `entry_order` tokens.
- Records.EntryList: an entry list that Python rejects with assorted TypeErrors, or that holds a canonical key as a substring, is one malformed-entries error.
- Records.CheckKeys: which unknown key the error names is not modelled, because Python's choice depends on dict insertion order.
- `last_update` is never set by either store, so the model never sets it either.
- Database.JsonDatabase.AddOrUpdateEntry: a matched candidate's `last_seen` is not refreshed unless the caller supplies it, as in the source.
- The rest of `mdserver/dnsmasq.py` (`__init__`, `hup`, `gen_dnsmasq_config`), the HTTP server, the libvirt parsing and the configuration loader are not part of this model.
- LegacyDatabase.AllocationTest: stated for every entry that passes the check, is named and holds no address. `TestEntry` is one such entry.
