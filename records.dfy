/** What both versions of the entry store share: schema checking and
    reformatting of dict records against a canonical template, the field-level
    merge of an upsert, the per-field indices and their lookup, and the
    create-or-merge step itself. Each version instantiates these with its own
    canonical entry (see database.dfy and legacy_database.dfy). */
module Records {
  import opened Wrappers
  import opened Json
  import Text

  const FirstSeen := "first_seen"
  const LastSeen := "last_seen"
  const DomainName := "domain_name"

  /** `Database.index_keys`: the same five fields in both versions. */
  const IndexKeys: seq<string> := ["domain_name", "domain_uuid", "mds_mac", "mds_ipv4", "mds_ipv6"]

  /** Why `_check_entry` raises ValueError. Which unknown key Python names
      depends on the dict's insertion order, which a map does not keep. */
  datatype SchemaError = MissingKey(key: string) | UnknownKey

  /** The exceptions of the store. */
  datatype DbError =
    | InvalidKey(key: string)       // ValueError: "<key> is not a valid database key"
    | InvalidEntry(why: SchemaError) // ValueError from `_check_entry`
    | UnsupportedFormat             // TypeError raised for DbFormatUnknown
    | Unparseable                   // the JSON decoder's error
    | MalformedEntries              // an entry list that is not a list of dicts
    | MalformedMetadata             // KeyError/TypeError on the metadata or a metadata dict
    | MalformedDomainMetadata       // KeyError/TypeError looking into an entry's domain_metadata

  /** What the database file held when a store was opened. */
  datatype FileContents =
    | Missing          // FileNotFoundError, or no file name at all
    | Garbled          // not JSON: the decoder raises
    | Document(root: Val)

  /** What `store(dbfile)` does: nothing, or write a document to a path. */
  datatype StoreAction = NoOp | Write(path: string, document: Val)

  /** The file `store(dbfile)` writes to: the one named, unless that name
      is None or empty, then the one the store was opened with; none for a
      store opened without a file. */
  function StoreTarget(path: Option<string>, dbfile: Option<string>): (r: Option<string>)
    ensures r.None? <==> (path.None? || path == Some("")) && dbfile.None?
    ensures path.Some? && path.value != "" ==> r == path
    ensures path.None? || path == Some("") ==> r == dbfile
  {
    if path.Some? && path.value != "" then path else dbfile
  }

  // ---------------------------------------------------------------------
  // Schema

  /** The first key of `keys`, in order, that `d` lacks. */
  function FirstMissing(keys: seq<string>, d: Dict): (r: Option<string>)
    ensures r.None? <==> forall i :: 0 <= i < |keys| ==> keys[i] in d
    ensures r.Some? ==> exists i :: 0 <= i < |keys| && keys[i] == r.value && r.value !in d
                                 && forall j :: 0 <= j < i ==> keys[j] in d
  {
    if keys == [] then None
    else if keys[0] !in d then Some(keys[0])
    else
      var r := FirstMissing(keys[1..], d);
      assert forall i :: 1 <= i < |keys| ==> keys[i] == keys[1..][i - 1];
      r
  }

  /** `_check_entry` against the canonical keys `keys` (in the order the
      canonical entry lists them): first every canonical key must be present,
      then every key present must be canonical. It passes exactly when the
      key sets are equal. */
  function CheckKeys(keys: seq<string>, d: Dict): (r: Outcome<SchemaError>)
    ensures r.Pass? <==> d.Keys == (set k | k in keys)
    ensures r.Fail? && r.error.MissingKey? ==> r.error.key in keys && r.error.key !in d
    ensures r == Fail(UnknownKey) ==> (set k | k in keys) < d.Keys
  {
    match FirstMissing(keys, d)
    case Some(k) => Fail(MissingKey(k))
    case None => if d.Keys <= (set k | k in keys) then Pass else Fail(UnknownKey)
  }

  /** `_reformat_entry`: a fresh canonical record, taking each canonical
      field from `d` when `d` has it. */
  function Reformat(template: Dict, d: Dict): Dict
  {
    map k | k in template :: if k in d then d[k] else template[k]
  }

  /** A reformatted entry always passes the check, keeps the canonical
      fields it had, takes the template's default for the others and drops
      the rest. */
  lemma ReformatConforms(keys: seq<string>, template: Dict, d: Dict)
    requires CheckKeys(keys, template).Pass?
    ensures CheckKeys(keys, Reformat(template, d)).Pass?
    ensures forall k :: k in keys && k in d ==> Reformat(template, d)[k] == d[k]
    ensures forall k :: k in keys && k !in d ==> Reformat(template, d)[k] == template[k]
    ensures forall k :: k in d && k !in keys ==> k !in Reformat(template, d)
  {
  }

  /** Reformatting an entry that already passes the check changes nothing. */
  lemma ReformatValidIsIdentity(keys: seq<string>, template: Dict, d: Dict)
    requires CheckKeys(keys, template).Pass?
    requires CheckKeys(keys, d).Pass?
    ensures Reformat(template, d) == d
  {
    assert Reformat(template, d).Keys == d.Keys;
  }

  /** An entry stamped with a `last_seen` that is not a canonical key fails
      the check, and reformatting it drops that stamp again. */
  lemma StampedReformat(keys: seq<string>, template: Dict, entry: Dict, first: Val, last: Val)
    requires CheckKeys(keys, template).Pass?
    requires CheckKeys(keys, entry).Pass?
    requires FirstSeen in keys && LastSeen !in keys
    ensures !CheckKeys(keys, entry[FirstSeen := first][LastSeen := last]).Pass?
    ensures RefreshEntry(keys, template, entry[FirstSeen := first][LastSeen := last]) == entry[FirstSeen := first]
  {
    var s := entry[FirstSeen := first][LastSeen := last];
    assert LastSeen in s.Keys && LastSeen !in (set k | k in keys);
    var r := Reformat(template, s);
    assert r.Keys == entry[FirstSeen := first].Keys;
  }

  /** An entry lacking exactly one canonical key is completed with the
      template's value for it. */
  lemma MissingKeyFilled(keys: seq<string>, template: Dict, d: Dict, k: string)
    requires CheckKeys(keys, template).Pass?
    requires k in keys && d.Keys == (set j | j in keys) - {k}
    ensures RefreshEntry(keys, template, d) == d[k := template[k]]
  {
    assert k !in d;
    assert !CheckKeys(keys, d).Pass?;
    assert Reformat(template, d).Keys == d[k := template[k]].Keys;
  }

  /** Changing the value of a field an entry has keeps it passing the
      check. */
  lemma UpdateKeepsPass(keys: seq<string>, d: Dict, k: string, v: Val)
    requires CheckKeys(keys, d).Pass? && k in keys
    ensures CheckKeys(keys, d[k := v]).Pass?
  {
    assert d[k := v].Keys == d.Keys;
  }

  /** An entry with exactly the fields `keys` lacks exactly `k` among the
      fields `[k] + keys`. */
  lemma OneKeyShort(keys: seq<string>, k: string, d: Dict)
    requires k !in keys && CheckKeys(keys, d).Pass?
    ensures d.Keys == (set j | j in [k] + keys) - {k}
  {
    assert (set j | j in [k] + keys) == (set j | j in keys) + {k};
  }

  /** One step of `_refresh_format`: keep an entry that passes the check,
      reformat one that fails it. */
  function RefreshEntry(keys: seq<string>, template: Dict, d: Dict): Dict
  {
    if CheckKeys(keys, d).Pass? then d else Reformat(template, d)
  }

  /** The entry list `_refresh_format` builds. */
  function Refreshed(keys: seq<string>, template: Dict, es: seq<Dict>): (r: seq<Dict>)
    ensures |r| == |es|
    ensures forall i :: 0 <= i < |es| ==> r[i] == RefreshEntry(keys, template, es[i])
  {
    seq(|es|, i requires 0 <= i < |es| => RefreshEntry(keys, template, es[i]))
  }

  /** After `_refresh_format` the count and order of the entries are those
      of before, entries that were valid are unchanged, and every entry is
      valid. */
  lemma RefreshedAllValid(keys: seq<string>, template: Dict, es: seq<Dict>)
    requires CheckKeys(keys, template).Pass?
    ensures |Refreshed(keys, template, es)| == |es|
    ensures forall i :: 0 <= i < |es| ==> CheckKeys(keys, Refreshed(keys, template, es)[i]).Pass?
    ensures forall i :: 0 <= i < |es| && CheckKeys(keys, es[i]).Pass? ==> Refreshed(keys, template, es)[i] == es[i]
  {
    forall i | 0 <= i < |es|
      ensures CheckKeys(keys, Refreshed(keys, template, es)[i]).Pass?
    {
      ReformatConforms(keys, template, es[i]);
    }
  }

  /** A list whose entries are all valid is left as it is. */
  lemma RefreshedValidIsIdentity(keys: seq<string>, template: Dict, es: seq<Dict>)
    requires forall i :: 0 <= i < |es| ==> CheckKeys(keys, es[i]).Pass?
    ensures Refreshed(keys, template, es) == es
  {
  }

  // ---------------------------------------------------------------------
  // Field-level merge

  /** During an update, field `k` of the candidate replaces the stored one
      when the candidate has it with a non-None value and it is not
      `first_seen`. */
  predicate Overwrites(cand: Dict, k: string)
  {
    k in cand && cand[k] != Null && k != FirstSeen
  }

  /** The stored record after the update loop of `add_or_update_entry` or
      `add_or_update_location`: a None in the candidate means "leave as it
      is", not "clear". */
  function Merge(stored: Dict, cand: Dict): Dict
  {
    map k | k in stored.Keys + cand.Keys && (k in stored || Overwrites(cand, k)) ::
      if Overwrites(cand, k) then cand[k] else stored[k]
  }

  /** The update loop itself, `for key in entry: if entry[key] is not None
      and key != "first_seen": oe[key] = entry[key]`, over the candidate's
      keys in any order. */
  method MergeInto(stored: Dict, cand: Dict) returns (merged: Dict)
    ensures merged == Merge(stored, cand)
  {
    merged := stored;
    var todo := cand.Keys;
    assert cand - todo == map[];
    assert Merge(stored, map[]) == stored;
    while todo != {}
      invariant todo <= cand.Keys
      invariant merged == Merge(stored, cand - todo)
      decreases todo
    {
      var k :| k in todo;
      MergeStep(stored, cand, todo, k);
      if cand[k] != Null && k != FirstSeen {
        merged := merged[k := cand[k]];
      }
      todo := todo - {k};
    }
    assert cand - todo == cand;
  }

  /** One iteration of the update loop: handling key `k` next. */
  lemma MergeStep(stored: Dict, cand: Dict, todo: set<string>, k: string)
    requires k in todo && todo <= cand.Keys
    ensures Merge(stored, cand - (todo - {k}))
            == if Overwrites(cand, k) then Merge(stored, cand - todo)[k := cand[k]]
               else Merge(stored, cand - todo)
  {
    var before := cand - todo;
    var after := cand - (todo - {k});
    assert after == before[k := cand[k]];
    var lhs := Merge(stored, after);
    var rhs := if Overwrites(cand, k) then Merge(stored, before)[k := cand[k]] else Merge(stored, before);
    assert lhs.Keys == rhs.Keys;
    forall j | j in lhs ensures lhs[j] == rhs[j] {
    }
  }

  /** Merging never adds a key the stored record lacks when the candidate's
      keys are among the stored ones, so a valid entry stays valid. */
  lemma MergeKeepsKeys(stored: Dict, cand: Dict)
    requires cand.Keys <= stored.Keys
    ensures Merge(stored, cand).Keys == stored.Keys
  {
  }

  /** `first_seen` survives every merge, and so does every field the
      candidate leaves None or does not carry. */
  lemma MergeKeepsUntouched(stored: Dict, cand: Dict)
    ensures FirstSeen in stored ==> Merge(stored, cand)[FirstSeen] == stored[FirstSeen]
    ensures forall k :: k in stored && !Overwrites(cand, k) ==> Merge(stored, cand)[k] == stored[k]
    ensures forall k :: Overwrites(cand, k) ==> Merge(stored, cand)[k] == cand[k]
  {
  }

  /** Merging the same candidate a second time changes nothing. */
  lemma MergeIdempotent(stored: Dict, cand: Dict)
    ensures Merge(Merge(stored, cand), cand) == Merge(stored, cand)
  {
    var once := Merge(stored, cand);
    assert Merge(once, cand).Keys == once.Keys;
  }

  // ---------------------------------------------------------------------
  // Indices

  /** Entry `i` holds the non-None value `v` under `key`. */
  predicate Holds(es: seq<Dict>, key: string, v: Val, i: int)
  {
    0 <= i < |es| && v != Null && key in es[i] && es[i][key] == v
  }

  /** The position of the last entry, in list order, holding `v` under
      `key`; None values are never found. */
  function LastHolder(es: seq<Dict>, key: string, v: Val): (r: Option<nat>)
    ensures r.None? ==> forall i :: !Holds(es, key, v, i)
    ensures r.Some? ==> Holds(es, key, v, r.value)
                        && forall j :: r.value < j < |es| ==> !Holds(es, key, v, j)
  {
    if es == [] then None
    else if Holds(es, key, v, |es| - 1) then Some(|es| - 1)
    else
      var r := LastHolder(es[..|es| - 1], key, v);
      assert forall i :: 0 <= i < |es| - 1 ==> (Holds(es, key, v, i) <==> Holds(es[..|es| - 1], key, v, i));
      r
  }

  /** A holder with no holder after it is the last holder. */
  lemma LastHolderUnique(es: seq<Dict>, key: string, v: Val, p: nat)
    requires Holds(es, key, v, p)
    requires forall j :: p < j < |es| ==> !Holds(es, key, v, j)
    ensures LastHolder(es, key, v) == Some(p)
  {
  }

  /** `query` on an index built from `es`: the last entry holding `v`. */
  function QueryIn(es: seq<Dict>, key: string, v: Val): Option<Dict>
  {
    match LastHolder(es, key, v)
    case Some(p) => Some(es[p])
    case None => None
  }

  /** `idx` is the dict `{e[key]: e for e in es if e[key] is not None}`,
      with entries named by their position: every value held by some entry
      maps to its last holder, and nothing else is in it. */
  ghost predicate IsIndex(idx: map<Val, nat>, es: seq<Dict>, key: string)
  {
    forall v ::
      && (v in idx <==> LastHolder(es, key, v).Some?)
      && (v in idx ==> idx[v] == LastHolder(es, key, v).value)
  }

  /** The comprehension that builds one index, as the loop it stands for:
      later entries overwrite earlier ones. */
  method BuildIndex(es: seq<Dict>, key: string) returns (idx: map<Val, nat>)
    ensures forall v :: v in idx <==> exists i :: Holds(es, key, v, i)
    ensures forall v :: v in idx ==> idx[v] < |es| && Holds(es, key, v, idx[v])
                                     && forall j :: idx[v] < j < |es| ==> !Holds(es, key, v, j)
    ensures IsIndex(idx, es, key)
  {
    idx := map[];
    for i := 0 to |es|
      invariant IsIndex(idx, es[..i], key)
    {
      ghost var before := es[..i];
      assert es[..i + 1][..i] == before;
      if key in es[i] && es[i][key] != Null {
        idx := idx[es[i][key] := i];
      }
      forall v ensures (v in idx <==> LastHolder(es[..i + 1], key, v).Some?)
                       && (v in idx ==> idx[v] == LastHolder(es[..i + 1], key, v).value)
      {
        if !Holds(es[..i + 1], key, v, i) {
          assert forall j :: 0 <= j < i ==> (Holds(es[..i + 1], key, v, j) <==> Holds(before, key, v, j));
        }
      }
    }
    assert es[..|es|] == es;
  }

  // ---------------------------------------------------------------------
  // Create-or-merge

  /** The entry list and the returned entry after one upsert. */
  datatype Upserted = Upserted(entries: seq<Dict>, current: Option<Dict>)

  /** The state change of `add_or_update_entry` once the candidate has
      passed the check: the last entry whose `idField` holds the candidate's
      value is merged with it; with no such entry, `created` (the candidate
      with its time stamps) is appended. The result is what `query` then
      returns for the candidate's value. */
  function UpsertWith(es: seq<Dict>, cand: Dict, idField: string, created: Dict): Upserted
    requires idField in cand
  {
    var next := match LastHolder(es, idField, cand[idField])
                case Some(p) => es[p := Merge(es[p], cand)]
                case None => es + [created];
    Upserted(next, QueryIn(next, idField, cand[idField]))
  }

  /** On a match at `p`: the count is unchanged, only entry `p` changes, it
      becomes the merge of the stored entry and the candidate, and it is the
      entry returned. */
  lemma UpsertMatched(es: seq<Dict>, cand: Dict, idField: string, created: Dict, p: nat)
    requires idField in cand && idField != FirstSeen
    requires LastHolder(es, idField, cand[idField]) == Some(p)
    ensures |UpsertWith(es, cand, idField, created).entries| == |es|
    ensures UpsertWith(es, cand, idField, created).entries[p] == Merge(es[p], cand)
    ensures forall j :: 0 <= j < |es| && j != p ==> UpsertWith(es, cand, idField, created).entries[j] == es[j]
    ensures UpsertWith(es, cand, idField, created).current == Some(Merge(es[p], cand))
  {
    var next := es[p := Merge(es[p], cand)];
    var v := cand[idField];
    assert Holds(next, idField, v, p);
    assert forall j :: p < j < |next| ==> (Holds(next, idField, v, j) <==> Holds(es, idField, v, j));
    LastHolderUnique(next, idField, v, p);
  }

  /** With no match, `created` is appended at the end, everything before it
      is unchanged, and it is returned unless the candidate's identity value
      is None (None is never indexed, so the closing query finds nothing). */
  lemma UpsertAppended(es: seq<Dict>, cand: Dict, idField: string, created: Dict)
    requires idField in cand && idField in created && created[idField] == cand[idField]
    requires LastHolder(es, idField, cand[idField]).None?
    ensures UpsertWith(es, cand, idField, created).entries == es + [created]
    ensures UpsertWith(es, cand, idField, created).current
            == if cand[idField] == Null then None else Some(created)
  {
    var next := es + [created];
    if cand[idField] != Null {
      assert Holds(next, idField, cand[idField], |es|);
      LastHolderUnique(next, idField, cand[idField], |es|);
    }
  }

  /** An upsert of a candidate carrying `keys` keeps every entry
      carrying them. */
  lemma UpsertKeepsKeys(keys: seq<string>, es: seq<Dict>, cand: Dict, idField: string, created: Dict)
    requires idField in cand && HasKeys(keys, created)
    requires forall i :: 0 <= i < |es| ==> HasKeys(keys, es[i])
    ensures forall i :: 0 <= i < |UpsertWith(es, cand, idField, created).entries| ==>
              HasKeys(keys, UpsertWith(es, cand, idField, created).entries[i])
  {
    match LastHolder(es, idField, cand[idField])
    case Some(p) =>
      assert Merge(es[p], cand).Keys >= es[p].Keys;
    case None =>
  }

  /** No upsert changes the `first_seen` of an entry already stored. */
  lemma UpsertKeepsFirstSeen(es: seq<Dict>, cand: Dict, idField: string, created: Dict)
    requires idField in cand
    ensures |UpsertWith(es, cand, idField, created).entries| >= |es|
    ensures forall i :: 0 <= i < |es| && FirstSeen in es[i] ==>
              FirstSeen in UpsertWith(es, cand, idField, created).entries[i]
              && UpsertWith(es, cand, idField, created).entries[i][FirstSeen] == es[i][FirstSeen]
  {
  }

  /** Upserting the same candidate twice (with a non-None identity value,
      and a created entry that agrees with the candidate on every field the
      candidate would overwrite) leaves the entries as the first upsert left
      them: the second call only merges values already there. */
  lemma UpsertIdempotent(es: seq<Dict>, cand: Dict, idField: string, created: Dict, created2: Dict)
    requires idField in cand && idField != FirstSeen && cand[idField] != Null
    requires idField in created && created[idField] == cand[idField]
    requires forall k :: Overwrites(cand, k) ==> k in created && created[k] == cand[k]
    ensures var once := UpsertWith(es, cand, idField, created).entries;
            UpsertWith(once, cand, idField, created2).entries == once
  {
    var once := UpsertWith(es, cand, idField, created).entries;
    var v := cand[idField];
    match LastHolder(es, idField, v)
    case Some(p) =>
      UpsertMatched(es, cand, idField, created, p);
      assert Holds(once, idField, v, p);
      assert forall j :: p < j < |once| ==> (Holds(once, idField, v, j) <==> Holds(es, idField, v, j));
      LastHolderUnique(once, idField, v, p);
      MergeIdempotent(es[p], cand);
      assert once[p := Merge(once[p], cand)] == once;
    case None =>
      UpsertAppended(es, cand, idField, created);
      assert Holds(once, idField, v, |es|);
      LastHolderUnique(once, idField, v, |es|);
      assert Merge(created, cand) == created;
      assert once[|es| := Merge(once[|es|], cand)] == once;
  }

  // ---------------------------------------------------------------------
  // Loading an entry list

  /** Every key of `keys` is present in `d`: what `e[key]` needs. */
  predicate HasKeys(keys: seq<string>, d: Dict)
  {
    forall j :: 0 <= j < |keys| ==> keys[j] in d
  }

  /** An entry that passes the check carries every canonical key. */
  lemma PassHasKeys(keys: seq<string>, d: Dict)
    requires CheckKeys(keys, d).Pass?
    ensures HasKeys(keys, d)
  {
    forall j | 0 <= j < |keys| ensures keys[j] in d {
      assert keys[j] in (set k | k in keys);
    }
  }

  /** What `_refresh_format` and the index rebuild make of one loaded list
      element. A dict is taken as it is. A string or list that holds none of
      the canonical keys (`key in entry` is a substring or membership test)
      fails the check and is reformatted from nothing, as an empty dict
      would be; one that holds a canonical key makes `entry[key]` raise
      TypeError. Any other value makes `key in entry` raise TypeError. */
  function AsEntry(keys: seq<string>, v: Val): (r: Result<Dict, DbError>)
    ensures r.Success? && !v.Obj? ==> r.value == map[]
    ensures v.Obj? ==> r == Success(v.fields)
  {
    match v
    case Obj(fields) => Success(fields)
    case Str(s) =>
      if exists i :: 0 <= i < |keys| && Text.Contains(s, keys[i]) then Failure(MalformedEntries)
      else Success(map[])
    case Arr(items) =>
      if exists i :: 0 <= i < |keys| && Str(keys[i]) in items then Failure(MalformedEntries)
      else Success(map[])
    case _ => Failure(MalformedEntries)
  }

  /** The loaded elements, in order, or the first failure. */
  function AsEntries(keys: seq<string>, items: seq<Val>): (r: Result<seq<Dict>, DbError>)
    ensures r.Success? <==> forall i :: 0 <= i < |items| ==> AsEntry(keys, items[i]).Success?
    ensures r.Success? ==> |r.value| == |items|
    ensures r.Success? ==> forall i :: 0 <= i < |items| ==> r.value[i] == AsEntry(keys, items[i]).value
    ensures r.Failure? ==> r.error == MalformedEntries
  {
    if items == [] then Success([])
    else
      match AsEntry(keys, items[0])
      case Failure(e) => Failure(e)
      case Success(d) =>
        var rest := AsEntries(keys, items[1..]);
        assert forall i :: 1 <= i < |items| ==> items[i] == items[1..][i - 1];
        match rest
        case Failure(e) => Failure(e)
        case Success(ds) => Success([d] + ds)
  }

  /** The entries `for entry in <value>` walks over. A list gives its
      elements; a string gives its characters as one-character strings; a
      dict gives its keys, all of which either become a fresh canonical
      entry or raise, so their order does not matter; anything else is not
      iterable. */
  function EntryList(keys: seq<string>, v: Val): (r: Result<seq<Dict>, DbError>)
    ensures r.Failure? ==> r.error == MalformedEntries
    ensures v.Arr? ==> && (r.Success? <==> forall i :: 0 <= i < |v.items| ==> AsEntry(keys, v.items[i]).Success?)
                       && (r.Success? ==> |r.value| == |v.items|
                                          && forall i :: 0 <= i < |v.items| ==> r.value[i] == AsEntry(keys, v.items[i]).value)
    ensures v.Str? ==> && (r.Success? <==> forall i :: 0 <= i < |v.s| ==> AsEntry(keys, Str([v.s[i]])).Success?)
                       && (r.Success? ==> |r.value| == |v.s|)
    ensures v.Obj? ==> && (r.Success? <==> forall k :: k in v.fields ==> AsEntry(keys, Str(k)).Success?)
                       && (r.Success? ==> |r.value| == |v.fields|)
    ensures !v.Arr? ==> r.Success? ==> forall i :: 0 <= i < |r.value| ==> r.value[i] == map[]
    ensures !(v.Arr? || v.Str? || v.Obj?) ==> r.Failure?
  {
    match v
    case Arr(items) => AsEntries(keys, items)
    case Str(s) =>
      var chars := seq(|s|, i requires 0 <= i < |s| => Str([s[i]]));
      assert forall i :: 0 <= i < |s| ==> chars[i] == Str([s[i]]);
      AsEntries(keys, chars)
    case Obj(fields) =>
      if exists k :: k in fields && AsEntry(keys, Str(k)).Failure? then Failure(MalformedEntries)
      else Success(seq(|fields|, i => map[]))
    case _ => Failure(MalformedEntries)
  }

  /** The document a store writes for its entries. */
  function EntriesDocument(es: seq<Dict>): (v: Val)
    ensures v.Arr? && |v.items| == |es|
    ensures forall i :: 0 <= i < |es| ==> v.items[i] == Obj(es[i])
  {
    Arr(seq(|es|, i requires 0 <= i < |es| => Obj(es[i])))
  }

  /** Loading a written entry list gives back the same dicts. */
  lemma EntryListOfDocument(keys: seq<string>, es: seq<Dict>)
    ensures EntryList(keys, EntriesDocument(es)) == Success(es)
  {
    var r := EntryList(keys, EntriesDocument(es));
    assert r.Success?;
    assert r.value == es;
  }

  /** A string of characters is loaded as that many fresh entries, because
      no canonical key is a single character. */
  lemma StringEntries(keys: seq<string>, s: string)
    requires forall i :: 0 <= i < |keys| ==> |keys[i]| > 1
    ensures EntryList(keys, Str(s)).Success?
    ensures |EntryList(keys, Str(s)).value| == |s|
  {
    var chars := seq(|s|, i requires 0 <= i < |s| => Str([s[i]]));
    forall n | 0 <= n < |chars| ensures AsEntry(keys, chars[n]).Success? {
      forall i | 0 <= i < |keys| ensures !Text.Contains([s[n]], keys[i]) {
        Text.ContainsNeedsRoom([s[n]], keys[i]);
      }
    }
  }

  // ---------------------------------------------------------------------
  // Domain metadata lookup

  /** `_get_entry_metadata` (`_get_metadata` in the older store): the value
      under `key` in the entry's `domain_metadata` dict, or None. `key in`
      on a list or a string is a membership or substring test, and finding
      it there makes the subscript raise; any other value raises at once. */
  function EntryMetadata(entry: Dict, key: string): (r: Result<Val, DbError>)
    ensures r.Success? && r.value != Null ==>
              "domain_metadata" in entry && entry["domain_metadata"].Obj?
              && key in entry["domain_metadata"].fields && entry["domain_metadata"].fields[key] == r.value
    ensures "domain_metadata" in entry && entry["domain_metadata"].Obj? ==>
              var fields := entry["domain_metadata"].fields;
              && (key in fields ==> r == Success(fields[key]))
              && (key !in fields ==> r == Success(Null))
    ensures "domain_metadata" in entry && entry["domain_metadata"].Arr? ==>
              (r.Failure? <==> Str(key) in entry["domain_metadata"].items)
    ensures "domain_metadata" in entry && entry["domain_metadata"].Str? ==>
              (r.Failure? <==> Text.Contains(entry["domain_metadata"].s, key))
    ensures "domain_metadata" !in entry ==> r.Failure?
    ensures r.Failure? ==> r.error == MalformedDomainMetadata
  {
    if "domain_metadata" !in entry then Failure(MalformedDomainMetadata)
    else
      match entry["domain_metadata"]
      case Obj(fields) => Success(if key in fields then fields[key] else Null)
      case Arr(items) => if Str(key) in items then Failure(MalformedDomainMetadata) else Success(Null)
      case Str(s) => if Text.Contains(s, key) then Failure(MalformedDomainMetadata) else Success(Null)
      case _ => Failure(MalformedDomainMetadata)
  }

  /** A missing metadata key and a None value both read as None; an empty
      metadata dict holds nothing. */
  lemma EmptyMetadataReadsNone(entry: Dict, key: string)
    requires "domain_metadata" in entry && entry["domain_metadata"] == Obj(map[])
    ensures EntryMetadata(entry, key) == Success(Null)
  {
  }

  // ---------------------------------------------------------------------
  // All indices of a store

  /** `indices` holds one index per index key, each built from `es`. */
  ghost predicate IndicesValid(indices: map<string, map<Val, nat>>, es: seq<Dict>)
  {
    && indices.Keys == (set k | k in IndexKeys)
    && forall key :: key in indices ==> IsIndex(indices[key], es, key)
  }

  /** `_reindex` (`_create_indices` in the older store): one index per
      index key. Every entry must carry every index key, or `e[key]` raises
      KeyError. */
  method BuildIndices(es: seq<Dict>) returns (indices: map<string, map<Val, nat>>)
    requires forall i :: 0 <= i < |es| ==> HasKeys(IndexKeys, es[i])
    ensures IndicesValid(indices, es)
  {
    indices := map[];
    for j := 0 to |IndexKeys|
      invariant indices.Keys == set k | k in IndexKeys[..j]
      invariant forall key :: key in indices ==> IsIndex(indices[key], es, key)
    {
      assert IndexKeys[..j + 1] == IndexKeys[..j] + [IndexKeys[j]];
      var idx := BuildIndex(es, IndexKeys[j]);
      indices := indices[IndexKeys[j] := idx];
    }
  }

  /** `query(key, needle)` against the indices: ValueError for a key that
      is not indexed, otherwise the last entry holding `needle`, or None. */
  function QueryIndices(indices: map<string, map<Val, nat>>, es: seq<Dict>, key: string, needle: Val)
    : (r: Result<Option<Dict>, DbError>)
    requires IndicesValid(indices, es)
    ensures key !in IndexKeys ==> r == Failure(InvalidKey(key))
    ensures key in IndexKeys ==> r == Success(QueryIn(es, key, needle))
  {
    if key !in indices then Failure(InvalidKey(key))
    else if needle in indices[key] then Success(Some(es[indices[key][needle]]))
    else Success(None)
  }

  /** The values some entry holds under `key`: what `gen_ip` reads off an
      index. */
  function HeldValues(es: seq<Dict>, key: string): set<Val>
  {
    set i | 0 <= i < |es| && key in es[i] && es[i][key] != Null :: es[i][key]
  }

  /** The keys of an index are exactly the values held under its field. */
  lemma IndexKeysAreHeld(idx: map<Val, nat>, es: seq<Dict>, key: string)
    requires IsIndex(idx, es, key)
    ensures idx.Keys == HeldValues(es, key)
  {
    forall v | v in HeldValues(es, key) ensures v in idx {
      var i :| 0 <= i < |es| && key in es[i] && es[i][key] != Null && es[i][key] == v;
      assert Holds(es, key, v, i);
    }
  }

  /** The match-and-merge or append of an upsert, done through the index
      the way Python does it: the index entry is the stored dict, updated in
      place. */
  method UpsertInto(es: seq<Dict>, indices: map<string, map<Val, nat>>, cand: Dict, idField: string, created: Dict)
    returns (next: seq<Dict>)
    requires IndicesValid(indices, es) && idField in indices && idField in cand
    ensures next == UpsertWith(es, cand, idField, created).entries
  {
    var v := cand[idField];
    if v in indices[idField] {
      var p := indices[idField][v];
      var merged := MergeInto(es[p], cand);
      next := es[p := merged];
    } else {
      next := es + [created];
    }
  }

  /** `_refresh_format`'s loop: each entry kept or reformatted, in order. */
  method RefreshAll(keys: seq<string>, template: Dict, es: seq<Dict>) returns (refreshed: seq<Dict>)
    requires HasKeys(keys, template)
    ensures refreshed == Refreshed(keys, template, es)
    ensures forall i :: 0 <= i < |refreshed| ==> HasKeys(keys, refreshed[i])
  {
    refreshed := [];
    for i := 0 to |es|
      invariant refreshed == Refreshed(keys, template, es[..i])
    {
      var d := es[i];
      if CheckKeys(keys, d).Pass? {
        refreshed := refreshed + [d];
      } else {
        refreshed := refreshed + [Reformat(template, d)];
      }
    }
    assert es[..|es|] == es;
    forall i | 0 <= i < |refreshed| ensures HasKeys(keys, refreshed[i]) {
      if CheckKeys(keys, es[i]).Pass? {
        PassHasKeys(keys, es[i]);
      } else {
        assert refreshed[i].Keys == template.Keys;
      }
    }
  }
}
