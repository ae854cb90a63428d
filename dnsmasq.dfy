/** The host files `mdserver/dnsmasq.py` writes for dnsmasq: one DHCP host
    line and one DNS host line per address of each entry, in the store's
    iteration order. The file itself is the list of lines written; an
    exception part-way through leaves the lines written before it. */
module Dnsmasq {
  import opened Wrappers
  import opened Json
  import opened Text

  /** What a generator leaves in its file: the lines written, and whether
      it stopped on an exception (KeyError for an entry lacking a field,
      TypeError for a value Python cannot format or add). */
  datatype HostsFile = HostsFile(lines: seq<string>, raised: bool)

  /** The two generators with the configuration each reads:
      `dnsmasq.lease_len` for DHCP, and for DNS the `dnsmasq.entry_order`
      tokens with `dnsmasq.prefix` and `dnsmasq.domain`. */
  datatype Generator =
    | Dhcp(lease: Val)
    | Dns(tokens: seq<string>, prefix: Val, domain: Val)

  // ---------------------------------------------------------------------
  // Python formatting and arithmetic on values

  /** `"%s" % v` for the scalar values an entry holds; a list or a dict is
      rendered by a placeholder. */
  function Show(v: Val): string
  {
    match v
    case Null => "None"
    case Bool(b) => if b then "True" else "False"
    case Num(n) => IntText(n)
    case Str(s) => s
    case Arr(_) => "[...]"
    case Obj(_) => "{...}"
  }

  /** `"%d" % v`: an integer (a boolean counts as 0 or 1) in decimal; any
      other value raises TypeError. */
  function DecimalText(v: Val): (r: Option<string>)
    ensures r.Some? <==> v.Num? || v.Bool?
    ensures v.Num? ==> r == Some(IntText(v.n))
  {
    match v
    case Num(n) => Some(IntText(n))
    case Bool(b) => Some(if b then "1" else "0")
    case _ => None
  }

  /** Python's `a + b`: strings and lists concatenate, integers and
      booleans add; any other pairing raises TypeError. */
  function Add(a: Val, b: Val): (r: Option<Val>)
    ensures a.Str? && b.Str? ==> r == Some(Str(a.s + b.s))
    ensures r.None? <==> !((a.Str? && b.Str?) || (a.Arr? && b.Arr?)
                           || ((a.Num? || a.Bool?) && (b.Num? || b.Bool?)))
  {
    if a.Str? && b.Str? then Some(Str(a.s + b.s))
    else if a.Arr? && b.Arr? then Some(Arr(a.items + b.items))
    else if (a.Num? || a.Bool?) && (b.Num? || b.Bool?) then Some(Num(AsInt(a) + AsInt(b)))
    else None
  }

  function AsInt(v: Val): int
    requires v.Num? || v.Bool?
  {
    if v.Num? then v.n else if v.Bool? && v.b then 1 else 0
  }

  // ---------------------------------------------------------------------
  // DHCP host lines

  /** The fields `gen_dhcp_hosts` reads from every entry. */
  predicate HasDhcpFields(e: Dict)
  {
    "mds_mac" in e && "mds_ipv4" in e && "mds_ipv6" in e && "domain_name" in e
  }

  /** The number of addresses, 0 to 2, an entry holds. */
  function AddressCount(e: Dict): nat
  {
    (if "mds_ipv4" in e && e["mds_ipv4"] != Null then 1 else 0)
    + (if "mds_ipv6" in e && e["mds_ipv6"] != Null then 1 else 0)
  }

  /** `"%s,id:*,%s,%s,%d\n"` with the address already rendered (bare for
      IPv4, in brackets for IPv6). */
  function DhcpLine(mac: string, addr: string, name: string, lease: string): string
  {
    mac + ",id:*," + addr + "," + name + "," + lease + "\n"
  }

  /** The lines one entry contributes to the DHCP hosts file: an IPv4 line
      when it has an IPv4 address, then an IPv6 line when it has an IPv6
      address. None is the exception: a missing field, or a lease length
      `%d` cannot format when there is a line to write. */
  function DhcpEntryLines(e: Dict, lease: Val): (r: Option<seq<string>>)
    ensures r.None? <==> !HasDhcpFields(e) || (AddressCount(e) > 0 && DecimalText(lease).None?)
    ensures r.Some? ==> |r.value| == AddressCount(e)
    ensures r.Some? && e["mds_ipv4"] != Null ==>
              r.value[0] == DhcpLine(Show(e["mds_mac"]), Show(e["mds_ipv4"]), Show(e["domain_name"]),
                                     DecimalText(lease).value)
    ensures r.Some? && e["mds_ipv6"] != Null ==>
              r.value[|r.value| - 1] == DhcpLine(Show(e["mds_mac"]), "[" + Show(e["mds_ipv6"]) + "]",
                                                 Show(e["domain_name"]), DecimalText(lease).value)
  {
    if !HasDhcpFields(e) then None
    else if AddressCount(e) == 0 then Some([])
    else match DecimalText(lease)
      case None => None
      case Some(l) =>
        var mac := Show(e["mds_mac"]);
        var name := Show(e["domain_name"]);
        Some((if e["mds_ipv4"] != Null then [DhcpLine(mac, Show(e["mds_ipv4"]), name, l)] else [])
             + (if e["mds_ipv6"] != Null then [DhcpLine(mac, "[" + Show(e["mds_ipv6"]) + "]", name, l)] else []))
  }

  /** A DHCP line read back: cut at its commas it gives the MAC, the
      `id:*` marker, the address, the name and the lease, provided none of
      them holds a comma or a newline. */
  lemma DhcpLineFields(mac: string, addr: string, name: string, lease: string)
    requires ',' !in mac && ',' !in addr && ',' !in name && ',' !in lease && '\n' !in lease
    ensures var line := DhcpLine(mac, addr, name, lease);
            |line| > 0 && line[|line| - 1] == '\n'
            && Split(line[..|line| - 1], ',') == [mac, "id:*", addr, name, lease]
  {
    var line := DhcpLine(mac, addr, name, lease);
    var fields := [mac, "id:*", addr, name, lease];
    JoinCons(name, [lease], ",");
    JoinCons(addr, [name, lease], ",");
    JoinCons("id:*", [addr, name, lease], ",");
    JoinCons(mac, ["id:*", addr, name, lease], ",");
    assert [mac] + ["id:*", addr, name, lease] == fields;
    assert line[..|line| - 1] == Join(fields, [',']);
    SplitJoin(fields, ',');
  }

  /** Joining a first piece onto a non-empty rest puts one separator
      between them. */
  lemma JoinCons(p: string, rest: seq<string>, sep: string)
    requires |rest| >= 1
    ensures Join([p] + rest, sep) == p + sep + Join(rest, sep)
  {
    assert ([p] + rest)[1..] == rest;
  }

  // ---------------------------------------------------------------------
  // DNS host lines

  /** `[o.strip().lower() for o in entry_order.split(",")]`. */
  function OrderTokens(entryOrder: string): (tokens: seq<string>)
    ensures |tokens| == |Split(entryOrder, ',')|
    ensures forall i :: 0 <= i < |tokens| ==> tokens[i] == Lower(Strip(Split(entryOrder, ',')[i]))
  {
    var parts := Split(entryOrder, ',');
    seq(|parts|, i requires 0 <= i < |parts| => Lower(Strip(parts[i])))
  }

  /** The names one `entry_order` token contributes: a token starting with
      "base" names the bare name, one starting with "prefix" the prefixed
      name if a prefix is configured, "domain" or "fqdn" the qualified name
      if a domain is configured; any other token nothing. */
  function TokenNames(o: string, hname: Val, prefixed: Val, fqdn: Val, prefix: Val, domain: Val): seq<Val>
  {
    if "base" <= o then [hname]
    else if "prefix" <= o then (if Truthy(prefix) then [prefixed] else [])
    else if o == "domain" || o == "fqdn" then (if Truthy(domain) then [fqdn] else [])
    else []
  }

  /** The `names` list built from the tokens in order. */
  function Names(tokens: seq<string>, hname: Val, prefixed: Val, fqdn: Val, prefix: Val, domain: Val): seq<Val>
    decreases |tokens|
  {
    if tokens == [] then []
    else Names(tokens[..|tokens| - 1], hname, prefixed, fqdn, prefix, domain)
         + TokenNames(tokens[|tokens| - 1], hname, prefixed, fqdn, prefix, domain)
  }

  /** Each name comes from one token, in token order: the list for a
      concatenation of token lists is the concatenation of their lists. */
  lemma {:induction false} NamesConcat(a: seq<string>, b: seq<string>, hname: Val, prefixed: Val, fqdn: Val,
                                       prefix: Val, domain: Val)
    ensures Names(a + b, hname, prefixed, fqdn, prefix, domain)
            == Names(a, hname, prefixed, fqdn, prefix, domain) + Names(b, hname, prefixed, fqdn, prefix, domain)
    decreases |b|
  {
    if b != [] {
      var b' := b[..|b| - 1];
      assert (a + b)[..|a + b| - 1] == a + b';
      assert (a + b)[|a + b| - 1] == b[|b| - 1];
      NamesConcat(a, b', hname, prefixed, fqdn, prefix, domain);
    } else {
      assert a + b == a;
    }
  }

  /** Every name is the bare name, the prefixed name (only with a prefix
      configured) or the qualified name (only with a domain configured),
      and there are no more names than tokens. */
  lemma {:induction false} NamesAreConfigured(tokens: seq<string>, hname: Val, prefixed: Val, fqdn: Val,
                                              prefix: Val, domain: Val)
    ensures var names := Names(tokens, hname, prefixed, fqdn, prefix, domain);
            && |names| <= |tokens|
            && forall n :: n in names ==>
                 n == hname || (n == prefixed && Truthy(prefix)) || (n == fqdn && Truthy(domain))
    decreases |tokens|
  {
    if tokens != [] {
      NamesAreConfigured(tokens[..|tokens| - 1], hname, prefixed, fqdn, prefix, domain);
    }
  }

  /** The fields `gen_dns_hosts` reads from every entry. */
  predicate HasDnsFields(e: Dict)
  {
    "mds_ipv4" in e && "mds_ipv6" in e && "domain_name" in e
  }

  /** `prefix + hname` when a prefix is configured, otherwise the bare
      name; None when the addition raises. */
  function Prefixed(hname: Val, prefix: Val): (r: Option<Val>)
    ensures !Truthy(prefix) ==> r == Some(hname)
    ensures Truthy(prefix) && prefix.Str? && hname.Str? ==> r == Some(Str(prefix.s + hname.s))
  {
    if Truthy(prefix) then Add(prefix, hname) else Some(hname)
  }

  /** `prefixed + "." + domain` when a domain is configured, otherwise
      False; None when an addition raises. */
  function Qualified(prefixed: Val, domain: Val): (r: Option<Val>)
    ensures !Truthy(domain) ==> r == Some(Bool(false))
    ensures Truthy(domain) && prefixed.Str? && domain.Str? ==> r == Some(Str(prefixed.s + "." + domain.s))
  {
    if Truthy(domain) then
      match Add(prefixed, Str("."))
      case Some(p) => Add(p, domain)
      case None => None
    else Some(Bool(false))
  }

  /** `" ".join(names)`: TypeError unless every name is a string. */
  function JoinNames(names: seq<Val>): (r: Option<string>)
    ensures r.Some? <==> forall i :: 0 <= i < |names| ==> names[i].Str?
    ensures r.Some? ==> r.value == Join(seq(|names|, i requires 0 <= i < |names| && names[i].Str? => names[i].s), " ")
  {
    if forall i :: 0 <= i < |names| ==> names[i].Str? then
      Some(Join(seq(|names|, i requires 0 <= i < |names| && names[i].Str? => names[i].s), " "))
    else None
  }

  /** `"%s %s\n" % (addr, joined)`. */
  function DnsLine(addr: string, joined: string): string
  {
    addr + " " + joined + "\n"
  }

  /** The name list `gen_dns_hosts` builds for an entry, or None when
      forming the prefixed or the qualified name raises. */
  function EntryNames(hname: Val, tokens: seq<string>, prefix: Val, domain: Val): Option<seq<Val>>
  {
    match Prefixed(hname, prefix)
    case None => None
    case Some(prefixed) =>
      match Qualified(prefixed, domain)
      case None => None
      case Some(fqdn) => Some(Names(tokens, hname, prefixed, fqdn, prefix, domain))
  }

  /** The lines one entry contributes to the DNS hosts file: none when its
      name list is empty, otherwise an IPv4 line and then an IPv6 line for
      the addresses it holds, each the address and the joined names. None
      is the exception: a missing field, a prefix or domain that cannot be
      added to the name, or a name list holding a non-string when there is
      a line to write. */
  function DnsEntryLines(e: Dict, tokens: seq<string>, prefix: Val, domain: Val): (r: Option<seq<string>>)
    ensures r.None? <==>
              || !HasDnsFields(e)
              || EntryNames(e["domain_name"], tokens, prefix, domain).None?
              || (&& AddressCount(e) > 0
                  && EntryNames(e["domain_name"], tokens, prefix, domain).value != []
                  && JoinNames(EntryNames(e["domain_name"], tokens, prefix, domain).value).None?)
    ensures r.Some? && EntryNames(e["domain_name"], tokens, prefix, domain).value == [] ==> r.value == []
    ensures r.Some? && EntryNames(e["domain_name"], tokens, prefix, domain).value != [] ==>
              && |r.value| == AddressCount(e)
              && (e["mds_ipv4"] != Null ==>
                    r.value[0] == DnsLine(Show(e["mds_ipv4"]),
                                          JoinNames(EntryNames(e["domain_name"], tokens, prefix, domain).value).value))
              && (e["mds_ipv6"] != Null ==>
                    r.value[|r.value| - 1] == DnsLine(Show(e["mds_ipv6"]),
                                                      JoinNames(EntryNames(e["domain_name"], tokens, prefix, domain).value).value))
  {
    if !HasDnsFields(e) then None
    else match EntryNames(e["domain_name"], tokens, prefix, domain)
      case None => None
      case Some(names) =>
        if names == [] || AddressCount(e) == 0 then Some([])
        else match JoinNames(names)
          case None => None
          case Some(joined) =>
            Some((if e["mds_ipv4"] != Null then [DnsLine(Show(e["mds_ipv4"]), joined)] else [])
                 + (if e["mds_ipv6"] != Null then [DnsLine(Show(e["mds_ipv6"]), joined)] else []))
  }

  /** A DNS line read back: cut at its spaces it gives the address and then
      the names, provided none of them holds a space. */
  lemma DnsLineFields(addr: string, names: seq<string>)
    requires |names| >= 1 && ' ' !in addr
    requires forall i :: 0 <= i < |names| ==> ' ' !in names[i]
    ensures var line := DnsLine(addr, Join(names, " "));
            line[|line| - 1] == '\n' && Split(line[..|line| - 1], ' ') == [addr] + names
  {
    var line := DnsLine(addr, Join(names, " "));
    var fields := [addr] + names;
    assert fields[1..] == names;
    assert line[..|line| - 1] == Join(fields, " ");
    SplitJoin(fields, ' ');
  }

  /** The default `entry_order`, "base", is the single token "base". */
  lemma DefaultOrder()
    ensures OrderTokens("base") == ["base"]
  {
    SingleToken("base");
  }

  /** An `entry_order` without a comma, already stripped and lower-case, is
      that one token. */
  lemma SingleToken(o: string)
    requires ',' !in o && (o == [] || (!IsSpace(o[0]) && !IsSpace(o[|o| - 1])))
    requires forall i :: 0 <= i < |o| ==> !('A' <= o[i] <= 'Z')
    ensures OrderTokens(o) == [o]
  {
    assert Split(o, ',') == [o];
    OnePart(o);
    StripUnchanged(o);
    LowerUnchanged(o);
  }

  /** A text that splits into itself gives one token. */
  lemma OnePart(o: string)
    requires Split(o, ',') == [o]
    ensures OrderTokens(o) == [Lower(Strip(o))]
  {
  }

  /** With the default configuration (entry order "base", no prefix, no
      domain) an entry named by a string gets one line per address, each
      the address followed by the bare name. */
  lemma DefaultConfigLines(e: Dict)
    requires HasDnsFields(e) && e["domain_name"].Str?
    ensures DnsEntryLines(e, OrderTokens("base"), Bool(false), Bool(false))
            == Some((if e["mds_ipv4"] != Null then [DnsLine(Show(e["mds_ipv4"]), e["domain_name"].s)] else [])
                    + (if e["mds_ipv6"] != Null then [DnsLine(Show(e["mds_ipv6"]), e["domain_name"].s)] else []))
  {
    DefaultOrder();
    var hname := e["domain_name"];
    assert Names(["base"], hname, hname, Bool(false), Bool(false), Bool(false)) == [hname] by {
      assert ["base"][..0] == [];
    }
    assert EntryNames(hname, ["base"], Bool(false), Bool(false)) == Some([hname]);
    assert JoinNames([hname]) == Some(hname.s) by {
      assert seq(1, i requires 0 <= i < 1 && [hname][i].Str? => [hname][i].s) == [hname.s];
    }
    var expected := (if e["mds_ipv4"] != Null then [DnsLine(Show(e["mds_ipv4"]), hname.s)] else [])
                    + (if e["mds_ipv6"] != Null then [DnsLine(Show(e["mds_ipv6"]), hname.s)] else []);
    if AddressCount(e) == 0 {
      assert expected == [];
    }
    assert DnsEntryLines(e, ["base"], Bool(false), Bool(false)) == Some(expected);
  }

  // ---------------------------------------------------------------------
  // The files

  /** The lines of one entry for the generator. */
  function EntryLines(g: Generator, e: Dict): Option<seq<string>>
  {
    match g
    case Dhcp(lease) => DhcpEntryLines(e, lease)
    case Dns(tokens, prefix, domain) => DnsEntryLines(e, tokens, prefix, domain)
  }

  /** What a generator leaves in its file after the entries `es`: each
      entry's lines in turn, stopping at the first entry that raises. */
  function Written(es: seq<Dict>, g: Generator): HostsFile
    decreases |es|
  {
    if es == [] then HostsFile([], false)
    else
      var before := Written(es[..|es| - 1], g);
      if before.raised then before
      else match EntryLines(g, es[|es| - 1])
        case None => HostsFile(before.lines, true)
        case Some(ls) => HostsFile(before.lines + ls, false)
  }

  /** The file raises exactly when some entry does; otherwise it holds
      every entry's lines, in order. */
  lemma {:induction false} WrittenRaisesExactly(es: seq<Dict>, g: Generator)
    ensures Written(es, g).raised <==> exists i :: 0 <= i < |es| && EntryLines(g, es[i]).None?
    decreases |es|
  {
    if Written(es, g).raised {
      RaisedHasCause(es, g);
    } else if exists i :: 0 <= i < |es| && EntryLines(g, es[i]).None? {
      var i :| 0 <= i < |es| && EntryLines(g, es[i]).None?;
      CauseRaises(es, g, i);
    }
  }

  /** A file that raised has an entry that raised. */
  lemma {:induction false} RaisedHasCause(es: seq<Dict>, g: Generator)
    requires Written(es, g).raised
    ensures exists i :: 0 <= i < |es| && EntryLines(g, es[i]).None?
    decreases |es|
  {
    var init := es[..|es| - 1];
    if Written(init, g).raised {
      RaisedHasCause(init, g);
      var i :| 0 <= i < |init| && EntryLines(g, init[i]).None?;
      assert es[i] == init[i];
    } else {
      assert EntryLines(g, es[|es| - 1]).None?;
    }
  }

  /** An entry that raises makes the file raise. */
  lemma {:induction false} CauseRaises(es: seq<Dict>, g: Generator, i: nat)
    requires i < |es| && EntryLines(g, es[i]).None?
    ensures Written(es, g).raised
    decreases |es|
  {
    var init := es[..|es| - 1];
    if i < |init| {
      assert init[i] == es[i];
      CauseRaises(init, g, i);
    }
  }

  /** Entries after an exception change nothing. */
  lemma {:induction false} RaisedStays(es: seq<Dict>, i: nat, g: Generator)
    requires i <= |es| && Written(es[..i], g).raised
    ensures Written(es, g) == Written(es[..i], g)
    decreases |es| - i
  {
    if i < |es| {
      assert es[..i + 1][..i] == es[..i];
      RaisedStays(es, i + 1, g);
    } else {
      assert es[..i] == es;
    }
  }

  /** Without an exception, the DHCP file has one line per address. */
  lemma {:induction false} DhcpLineCount(es: seq<Dict>, lease: Val)
    requires !Written(es, Dhcp(lease)).raised
    ensures |Written(es, Dhcp(lease)).lines| == TotalAddresses(es)
    decreases |es|
  {
    if es != [] {
      DhcpLineCount(es[..|es| - 1], lease);
    }
  }

  /** Without an exception, the DNS file has at most one line per
      address. */
  lemma {:induction false} DnsLineCount(es: seq<Dict>, tokens: seq<string>, prefix: Val, domain: Val)
    requires !Written(es, Dns(tokens, prefix, domain)).raised
    ensures |Written(es, Dns(tokens, prefix, domain)).lines| <= TotalAddresses(es)
    decreases |es|
  {
    if es != [] {
      DnsLineCount(es[..|es| - 1], tokens, prefix, domain);
    }
  }

  /** On entries that carry the four fields, as every stored entry does,
      with a lease length `%d` can format, the DHCP file never raises. */
  lemma DhcpNeverRaises(es: seq<Dict>, lease: Val)
    requires forall i :: 0 <= i < |es| ==> HasDhcpFields(es[i])
    requires lease.Num? || lease.Bool?
    ensures !Written(es, Dhcp(lease)).raised
  {
    WrittenRaisesExactly(es, Dhcp(lease));
  }

  /** The number of addresses the entries hold. */
  function TotalAddresses(es: seq<Dict>): nat
    decreases |es|
  {
    if es == [] then 0 else TotalAddresses(es[..|es| - 1]) + AddressCount(es[|es| - 1])
  }

  /** The file after one more entry, when the ones before did not raise. */
  lemma WrittenStep(es: seq<Dict>, i: nat, g: Generator, lines: seq<string>)
    requires i < |es| && Written(es[..i], g) == HostsFile(lines, false)
    ensures Written(es[..i + 1], g) ==
              match EntryLines(g, es[i])
              case None => HostsFile(lines, true)
              case Some(ls) => HostsFile(lines + ls, false)
  {
    assert es[..i + 1][..i] == es[..i];
  }

  /** The body of the loop of `gen_dhcp_hosts` for one entry: the lines it
      writes, or None when it raises. */
  method DhcpLinesOf(entry: Dict, lease: Val) returns (r: Option<seq<string>>)
    ensures r == DhcpEntryLines(entry, lease)
  {
    if !HasDhcpFields(entry) {
      return None;
    }
    var mac := entry["mds_mac"];
    var ipv4 := entry["mds_ipv4"];
    var ipv6 := entry["mds_ipv6"];
    var hname := entry["domain_name"];
    var lines: seq<string> := [];
    if ipv4 != Null || ipv6 != Null {
      var leaseText := DecimalText(lease);
      if leaseText.None? {
        return None;
      }
      if ipv4 != Null {
        lines := lines + [DhcpLine(Show(mac), Show(ipv4), Show(hname), leaseText.value)];
      }
      if ipv6 != Null {
        lines := lines + [DhcpLine(Show(mac), "[" + Show(ipv6) + "]", Show(hname), leaseText.value)];
      }
      assert lines == (if ipv4 != Null then [DhcpLine(Show(mac), Show(ipv4), Show(hname), leaseText.value)] else [])
                      + (if ipv6 != Null then [DhcpLine(Show(mac), "[" + Show(ipv6) + "]", Show(hname), leaseText.value)]
                         else []);
    }
    return Some(lines);
  }

  /** `gen_dhcp_hosts(db)` with `lease_len` as `lease`, the store's entries
      in iteration order as `es`, and the file as the lines written. */
  method GenDhcpHosts(es: seq<Dict>, lease: Val) returns (file: HostsFile)
    ensures file == Written(es, Dhcp(lease))
  {
    var lines: seq<string> := [];
    var i := 0;
    while i < |es|
      invariant i <= |es| && Written(es[..i], Dhcp(lease)) == HostsFile(lines, false)
    {
      WrittenStep(es, i, Dhcp(lease), lines);
      var written := DhcpLinesOf(es[i], lease);
      if written.None? {
        RaisedStays(es, i + 1, Dhcp(lease));
        return HostsFile(lines, true);
      }
      lines := lines + written.value;
      i := i + 1;
    }
    assert es[..i] == es;
    return HostsFile(lines, false);
  }

  /** One more token adds its names at the end. */
  lemma NamesStep(tokens: seq<string>, j: nat, hname: Val, prefixed: Val, fqdn: Val, prefix: Val, domain: Val)
    requires j < |tokens|
    ensures Names(tokens[..j + 1], hname, prefixed, fqdn, prefix, domain)
            == Names(tokens[..j], hname, prefixed, fqdn, prefix, domain)
               + TokenNames(tokens[j], hname, prefixed, fqdn, prefix, domain)
  {
    assert tokens[..j + 1][..j] == tokens[..j];
  }

  /** The inner loop of `gen_dns_hosts`: the name list for one entry. */
  method BuildNames(tokens: seq<string>, hname: Val, prefixed: Val, fqdn: Val, prefix: Val, domain: Val)
    returns (names: seq<Val>)
    ensures names == Names(tokens, hname, prefixed, fqdn, prefix, domain)
  {
    names := [];
    for j := 0 to |tokens|
      invariant names == Names(tokens[..j], hname, prefixed, fqdn, prefix, domain)
    {
      NamesStep(tokens, j, hname, prefixed, fqdn, prefix, domain);
      var o := tokens[j];
      if "base" <= o {
        names := names + [hname];
      } else if "prefix" <= o {
        if Truthy(prefix) {
          names := names + [prefixed];
        }
      } else if o == "domain" || o == "fqdn" {
        if Truthy(domain) {
          names := names + [fqdn];
        }
      }
    }
    assert tokens[..|tokens|] == tokens;
  }

  /** The body of the loop of `gen_dns_hosts` for one entry: the lines it
      writes, or None when it raises. */
  method DnsLinesOf(entry: Dict, order: seq<string>, prefix: Val, domain: Val) returns (r: Option<seq<string>>)
    ensures r == DnsEntryLines(entry, order, prefix, domain)
  {
    if !HasDnsFields(entry) {
      return None;
    }
    var ipv4 := entry["mds_ipv4"];
    var ipv6 := entry["mds_ipv6"];
    var hname := entry["domain_name"];
    var prefixed := Prefixed(hname, prefix);
    if prefixed.None? {
      return None;
    }
    var fqdn := Qualified(prefixed.value, domain);
    if fqdn.None? {
      return None;
    }
    var names := BuildNames(order, hname, prefixed.value, fqdn.value, prefix, domain);
    assert EntryNames(hname, order, prefix, domain) == Some(names);
    var lines: seq<string> := [];
    if |names| > 0 {
      if ipv4 != Null || ipv6 != Null {
        var joined := JoinNames(names);
        if joined.None? {
          return None;
        }
        if ipv4 != Null {
          lines := lines + [DnsLine(Show(ipv4), joined.value)];
        }
        if ipv6 != Null {
          lines := lines + [DnsLine(Show(ipv6), joined.value)];
        }
        assert lines == (if ipv4 != Null then [DnsLine(Show(ipv4), joined.value)] else [])
                        + (if ipv6 != Null then [DnsLine(Show(ipv6), joined.value)] else []);
      }
    }
    return Some(lines);
  }

  /** `gen_dns_hosts(db)` with `entry_order`, `prefix` and `domain` from the
      configuration, the store's entries in iteration order as `es`, and
      the file as the lines written. */
  method GenDnsHosts(es: seq<Dict>, entryOrder: string, prefix: Val, domain: Val) returns (file: HostsFile)
    ensures file == Written(es, Dns(OrderTokens(entryOrder), prefix, domain))
  {
    var order := OrderTokens(entryOrder);
    ghost var g := Dns(order, prefix, domain);
    var lines: seq<string> := [];
    var i := 0;
    while i < |es|
      invariant i <= |es| && Written(es[..i], g) == HostsFile(lines, false)
    {
      WrittenStep(es, i, g, lines);
      var written := DnsLinesOf(es[i], order, prefix, domain);
      if written.None? {
        RaisedStays(es, i + 1, g);
        return HostsFile(lines, true);
      }
      lines := lines + written.value;
      i := i + 1;
    }
    assert es[..i] == es;
    return HostsFile(lines, false);
  }
}
