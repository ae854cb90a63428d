/** `gen_ip`, the random-probe address allocator, shared verbatim by both
    versions of the store. Addresses are naturals; Python's `str()` of an
    address is the parameter `text`, and `random.randrange` is the sequence
    `offsets` of the values it returns. */
module Allocator {
  import opened Json
  import Text

  datatype Family = V4 | V6

  function Width(f: Family): nat
  {
    if f == V4 then 32 else 128
  }

  function Pow2(n: nat): (r: nat)
    ensures r >= 1
  {
    if n == 0 then 1 else if n % 2 == 0 then Pow2(n / 2) * Pow2(n / 2) else 2 * Pow2(n - 1)
  }

  /** `Pow2` computes powers of two: each step up doubles it. */
  lemma {:induction false} Pow2Succ(n: nat)
    ensures Pow2(n + 1) == 2 * Pow2(n)
  {
    if n % 2 == 1 {
      var k := n / 2;
      Pow2Succ(k);
      Pow2Halves(k + 1);
      if k == 0 {
        assert Pow2(n) == 2;
      } else {
        Pow2Halves(k);
        assert Pow2(n) == 2 * Pow2(2 * k);
        Doubled(Pow2(k));
      }
    }
  }

  lemma Pow2Halves(k: nat)
    requires k > 0
    ensures Pow2(2 * k) == Pow2(k) * Pow2(k)
  {
    assert (2 * k) % 2 == 0 && (2 * k) / 2 == k;
  }

  lemma Doubled(a: nat)
    ensures (2 * a) * (2 * a) == 2 * (2 * (a * a))
  {
  }

  /** A parsed `ipaddress.ip_network`: the family, the network address and
      the prefix length. */
  datatype Network = Network(family: Family, base: nat, prefixLen: nat)
  {
    /** What `ip_network` accepts in strict mode: a prefix no longer than
        the address, no host bits set, an address that fits. */
    predicate Valid()
    {
      prefixLen <= Width(family) && base % Pow2(Width(family) - prefixLen) == 0
      && base < Pow2(Width(family))
    }

    /** `net.num_addresses`. */
    function Size(): nat
      requires Valid()
    {
      Pow2(Width(family) - prefixLen)
    }

    /** `net.broadcast_address`: the last address of the network. */
    function Broadcast(): nat
      requires Valid()
    {
      base + Size() - 1
    }

    /** The index `gen_ip` consults for this family. */
    function IndexKey(): string
    {
      if family == V4 then "mds_ipv4" else "mds_ipv6"
    }
  }

  datatype Allocation =
    | Allocated(addr: nat)  // the address returned
    | NoFreeAddress         // `gen_ip` returned None
    | OffsetsExhausted      // the loop needed more random offsets than given

  /** `allocated_map` as built before the loop: every value in the family's
      index, every excluded address, the network and the broadcast address. */
  function Unavailable(indexed: set<Val>, exclude: seq<string>, net: Network, text: nat -> string): set<Val>
    requires net.Valid()
  {
    indexed + (set j | 0 <= j < |exclude| :: Str(exclude[j]))
    + {Str(text(net.base)), Str(text(net.Broadcast()))}
  }

  /** The first probe whose address is not unavailable. */
  function FirstFree(unavailable: set<Val>, net: Network, offsets: seq<nat>, text: nat -> string): (r: Allocation)
    ensures r.Allocated? ==> exists i :: 0 <= i < |offsets| && r.addr == net.base + offsets[i]
                                         && Str(text(r.addr)) !in unavailable
    ensures r.OffsetsExhausted? <==> forall i :: 0 <= i < |offsets| ==> Str(text(net.base + offsets[i])) in unavailable
    ensures !r.NoFreeAddress?
  {
    if offsets == [] then OffsetsExhausted
    else if Str(text(net.base + offsets[0])) !in unavailable then Allocated(net.base + offsets[0])
    else
      var r := FirstFree(unavailable, net, offsets[1..], text);
      assert forall i :: 0 <= i < |offsets| - 1 ==> offsets[1..][i] == offsets[i + 1];
      r
  }

  /** The probe returned is the first one drawn that is free. */
  lemma {:induction false} FirstFreeIsFirst(unavailable: set<Val>, net: Network, offsets: seq<nat>, text: nat -> string, i: nat)
    requires i < |offsets| && Str(text(net.base + offsets[i])) !in unavailable
    requires forall j :: 0 <= j < i ==> Str(text(net.base + offsets[j])) in unavailable
    ensures FirstFree(unavailable, net, offsets, text) == Allocated(net.base + offsets[i])
  {
    if i > 0 {
      var rest := offsets[1..];
      assert rest[i - 1] == offsets[i];
      assert forall j :: 0 <= j < i - 1 ==> rest[j] == offsets[j + 1];
      assert Str(text(net.base + offsets[0])) in unavailable;
      FirstFreeIsFirst(unavailable, net, rest, text, i - 1);
    }
  }

  /** What `gen_ip` returns: None when the unavailable set is already as
      large as the network, otherwise the first free probe. */
  function Allocate(unavailable: set<Val>, net: Network, offsets: seq<nat>, text: nat -> string): Allocation
    requires net.Valid()
  {
    if |unavailable| >= net.Size() then NoFreeAddress else FirstFree(unavailable, net, offsets, text)
  }

  /** `gen_ip` after `random.seed`: the family's index values (`indexed`)
      come from the store. The re-check of the store's index inside the loop
      is left out: every indexed value is already in `allocated_map`, so that
      branch is never taken. */
  method GenIp(indexed: set<Val>, net: Network, exclude: seq<string>, offsets: seq<nat>, text: nat -> string)
    returns (r: Allocation)
    requires net.Valid()
    requires forall i :: 0 <= i < |offsets| ==> offsets[i] < net.Size()
    ensures r == Allocate(Unavailable(indexed, exclude, net, text), net, offsets, text)
  {
    var allocatedMap := indexed;
    for i := 0 to |exclude|
      invariant allocatedMap == indexed + (set j | 0 <= j < i :: Str(exclude[j]))
    {
      assert (set j | 0 <= j < i + 1 :: Str(exclude[j])) == (set j | 0 <= j < i :: Str(exclude[j])) + {Str(exclude[i])};
      allocatedMap := allocatedMap + {Str(exclude[i])};
    }
    allocatedMap := allocatedMap + {Str(text(net.base)), Str(text(net.Broadcast()))};
    ghost var unavailable := Unavailable(indexed, exclude, net, text);
    assert allocatedMap == unavailable;
    var n := 0;
    while |allocatedMap| < net.Size()
      invariant n <= |offsets| && allocatedMap == unavailable
      invariant FirstFree(unavailable, net, offsets, text) == FirstFree(unavailable, net, offsets[n..], text)
      decreases |offsets| - n
    {
      if n == |offsets| {
        return OffsetsExhausted;
      }
      var address := net.base + offsets[n];
      assert offsets[n..][1..] == offsets[n + 1..];
      n := n + 1;
      if Str(text(address)) in allocatedMap {
        continue;
      }
      return Allocated(address);
    }
    return NoFreeAddress;
  }

  /** Every address `gen_ip` returns lies in the network, is not in the
      family's index, is not excluded, and is neither the network nor the
      broadcast address. */
  lemma AllocatedIsSafe(indexed: set<Val>, net: Network, exclude: seq<string>, offsets: seq<nat>, text: nat -> string)
    requires net.Valid()
    requires forall i :: 0 <= i < |offsets| ==> offsets[i] < net.Size()
    ensures var r := Allocate(Unavailable(indexed, exclude, net, text), net, offsets, text);
            r.Allocated? ==>
              && net.base <= r.addr < net.base + net.Size()
              && Str(text(r.addr)) !in indexed
              && text(r.addr) !in exclude
              && r.addr != net.base && r.addr != net.Broadcast()
  {
  }

  /** `gen_ip` gives up, returning None, exactly when the unavailable set has
      at least as many members as the network has addresses. */
  lemma NoFreeAddressExactly(unavailable: set<Val>, net: Network, offsets: seq<nat>, text: nat -> string)
    requires net.Valid()
    ensures Allocate(unavailable, net, offsets, text) == NoFreeAddress <==> |unavailable| >= net.Size()
  {
  }

  /** The text, as `allocated_map` holds it, of the address at `offset`. */
  function ProbeText(net: Network, text: nat -> string, offset: nat): Val
  {
    Str(text(net.base + offset))
  }

  /** `text` tells apart the first `n` addresses of the network. */
  ghost predicate DistinctTexts(net: Network, text: nat -> string, n: nat)
  {
    forall o1, o2 :: 0 <= o1 < n && 0 <= o2 < n && ProbeText(net, text, o1) == ProbeText(net, text, o2) ==> o1 == o2
  }

  /** The texts of the first `n` addresses are `n` different values. */
  lemma {:induction false} ProbeImageSize(net: Network, text: nat -> string, n: nat)
    requires DistinctTexts(net, text, n)
    ensures |set o | 0 <= o < n :: ProbeText(net, text, o)| == n
  {
    if n > 0 {
      var smaller := set o | 0 <= o < n - 1 :: ProbeText(net, text, o);
      assert DistinctTexts(net, text, n - 1);
      ProbeImageSize(net, text, n - 1);
      assert (set o | 0 <= o < n :: ProbeText(net, text, o)) == smaller + {ProbeText(net, text, n - 1)};
      assert ProbeText(net, text, n - 1) !in smaller;
    }
  }

  /** While the loop condition holds some offset is free, provided `text`
      tells the network's addresses apart; so a random source that draws
      every offset eventually makes `gen_ip` return. */
  lemma FreeOffsetExists(unavailable: set<Val>, net: Network, text: nat -> string)
    requires net.Valid()
    requires DistinctTexts(net, text, net.Size())
    requires |unavailable| < net.Size()
    ensures exists o :: 0 <= o < net.Size() && ProbeText(net, text, o) !in unavailable
  {
    var probes := set o | 0 <= o < net.Size() :: ProbeText(net, text, o);
    ProbeImageSize(net, text, net.Size());
    if probes <= unavailable {
      SubsetSize(probes, unavailable);
      assert false;
    }
    var x :| x in probes && x !in unavailable;
  }

  /** A random source that has drawn every offset of the network has made
      `gen_ip` return an address, unless it gave up at once. */
  lemma EveryOffsetDrawn(unavailable: set<Val>, net: Network, offsets: seq<nat>, text: nat -> string)
    requires net.Valid()
    requires DistinctTexts(net, text, net.Size())
    requires forall o :: 0 <= o < net.Size() ==> o in offsets
    ensures Allocate(unavailable, net, offsets, text).Allocated? <==> |unavailable| < net.Size()
  {
    if |unavailable| < net.Size() {
      FreeOffsetExists(unavailable, net, text);
      var o :| 0 <= o < net.Size() && ProbeText(net, text, o) !in unavailable;
      assert o in offsets;
      var i :| 0 <= i < |offsets| && offsets[i] == o;
      assert Str(text(net.base + offsets[i])) !in unavailable;
    }
  }

  lemma SubsetSize<T>(a: set<T>, b: set<T>)
    requires a <= b
    ensures |a| <= |b|
  {
    assert b == a + (b - a);
  }

  // ---------------------------------------------------------------------
  // IPv4 text

  function Quad(a: nat, b: nat, c: nat, d: nat): nat
  {
    ((a * 256 + b) * 256 + c) * 256 + d
  }

  /** `str(IPv4Address(a))`: four dotted decimal octets. */
  function Dotted(a: nat): string
  {
    OctetsText(a, 4)
  }

  /** The last `n` octets of `a` in dotted decimal; the first one printed
      takes all the higher bits. */
  function OctetsText(a: nat, n: nat): string
  {
    if n <= 1 then Text.NatText(a)
    else OctetsText(a / 256, n - 1) + "." + Text.NatText(a % 256)
  }

  /** A string cut at its last dot: the part after it holds no dot. */
  lemma DotSplit(x: string, y: string, x': string, y': string)
    requires '.' !in y && '.' !in y'
    requires x + "." + y == x' + "." + y'
    ensures x == x' && y == y'
  {
    var s := x + "." + y;
    assert s[|x|] == '.';
    assert s[|x'|] == '.';
    assert x == s[..|x|] && x' == s[..|x'|];
    assert y == s[|x| + 1..] && y' == s[|x'| + 1..];
  }

  lemma NatTextInjective(m: nat, n: nat)
    requires Text.NatText(m) == Text.NatText(n)
    ensures m == n
  {
    Text.NatTextRoundTrip(m);
    Text.NatTextRoundTrip(n);
  }

  lemma NoDot(n: nat)
    ensures '.' !in Text.NatText(n)
  {
  }

  /** Different numbers have different octet texts. */
  lemma {:induction false} OctetsTextInjective(a: nat, b: nat, n: nat)
    requires OctetsText(a, n) == OctetsText(b, n)
    ensures a == b
    decreases n
  {
    if n <= 1 {
      NatTextInjective(a, b);
    } else {
      NoDot(a % 256);
      NoDot(b % 256);
      DotSplit(OctetsText(a / 256, n - 1), Text.NatText(a % 256), OctetsText(b / 256, n - 1), Text.NatText(b % 256));
      OctetsTextInjective(a / 256, b / 256, n - 1);
      NatTextInjective(a % 256, b % 256);
    }
  }

  /** Different addresses have different dotted text, so Dotted meets the
      precondition of FreeOffsetExists. */
  lemma DottedInjective(a: nat, b: nat)
    requires Dotted(a) == Dotted(b)
    ensures a == b
  {
    OctetsTextInjective(a, b, 4);
  }

  /** Dotted text tells every network's addresses apart. */
  lemma DottedDistinct(net: Network, n: nat)
    ensures DistinctTexts(net, Dotted, n)
  {
    forall o1, o2 | 0 <= o1 < n && 0 <= o2 < n && ProbeText(net, Dotted, o1) == ProbeText(net, Dotted, o2)
      ensures o1 == o2
    {
      DottedProbe(net, o1, o2);
    }
  }

  lemma DottedProbe(net: Network, o1: nat, o2: nat)
    requires ProbeText(net, Dotted, o1) == ProbeText(net, Dotted, o2)
    ensures o1 == o2
  {
    DottedInjective(net.base + o1, net.base + o2);
  }

  /** The text of 10.122.5.220. */
  lemma DottedExample()
    ensures Dotted(Quad(10, 122, 5, 220)) == "10.122.5.220"
  {
    assert Quad(10, 122, 5, 220) == 175769052;
    OctetsPrefix();
    OctetsStep(686597, 220, 3);
    Decimal220();
  }

  /** The text of the top three octets, 10.122.5. */
  lemma OctetsPrefix()
    ensures OctetsText(686597, 3) == "10.122.5"
  {
    Decimal10();
    Decimal122();
    OctetsStep(10, 122, 1);
    assert OctetsText(2682, 2) == "10.122";
    OctetsStep(2682, 5, 2);
    assert Text.NatText(5) == "5";
  }

  lemma Decimal10()
    ensures Text.NatText(10) == "10"
  {
    assert Text.DigitChar(1) == '1' && Text.DigitChar(0) == '0';
    assert Text.NatText(10) == Text.NatText(1) + [Text.DigitChar(0)];
  }

  lemma Decimal122()
    ensures Text.NatText(122) == "122"
  {
    assert Text.DigitChar(1) == '1' && Text.DigitChar(2) == '2';
    assert Text.NatText(12) == Text.NatText(1) + [Text.DigitChar(2)] == "12";
    assert Text.NatText(122) == Text.NatText(12) + [Text.DigitChar(2)];
  }

  lemma Decimal220()
    ensures Text.NatText(220) == "220"
  {
    assert Text.DigitChar(2) == '2' && Text.DigitChar(0) == '0';
    assert Text.NatText(22) == Text.NatText(2) + [Text.DigitChar(2)] == "22";
    assert Text.NatText(220) == Text.NatText(22) + [Text.DigitChar(0)];
  }

  /** One more octet below `t` adds its text after a dot. */
  lemma OctetsStep(t: nat, d: nat, n: nat)
    requires d < 256 && n >= 1
    ensures OctetsText(t * 256 + d, n + 1) == OctetsText(t, n) + "." + Text.NatText(d)
  {
    OctetSplit(t, d);
  }

  /** Cutting off the lowest octet. */
  lemma OctetSplit(t: nat, d: nat)
    requires d < 256
    ensures (t * 256 + d) / 256 == t && (t * 256 + d) % 256 == d
  {
  }

  /** The powers of two the test networks need. */
  lemma Pow2Values()
    ensures Pow2(16) == 0x1_0000 && Pow2(32) == 0x1_0000_0000
    ensures Pow2(96) == 0x1_0000_0000_0000_0000_0000_0000
    ensures Pow2(128) == 0x1_0000_0000_0000_0000_0000_0000_0000_0000
  {
    assert Pow2(2) == 4;
    assert Pow2(3) == 8;
    assert Pow2(4) == 16;
    assert Pow2(6) == 64;
    assert Pow2(8) == 256;
    assert Pow2(12) == 4096;
    assert Pow2(16) == 0x1_0000;
    assert Pow2(24) == 0x100_0000;
    assert Pow2(32) == 0x1_0000_0000;
    assert Pow2(48) == 0x1_0000_0000_0000;
    assert Pow2(64) == 0x1_0000_0000_0000_0000;
  }

  /** 10.122.0.0/16 is a valid network of 65536 addresses. */
  lemma TestNetwork()
    ensures Network(V4, Quad(10, 122, 0, 0), 16).Valid()
    ensures Network(V4, Quad(10, 122, 0, 0), 16).Size() == 65536
  {
    Pow2Values();
    assert Quad(10, 122, 0, 0) == 175767552;
    assert 175767552 % 0x1_0000 == 0;
  }

  /** The IPv4 case of the allocation test: an empty index, no exclusions,
      a random offset of 1500 in 10.122.0.0/16 gives 10.122.5.220. */
  lemma Ipv4TestVector()
    ensures Network(V4, Quad(10, 122, 0, 0), 16).Valid()
    ensures var net := Network(V4, Quad(10, 122, 0, 0), 16);
            Allocate(Unavailable({}, [], net, Dotted), net, [1500], Dotted) == Allocated(Quad(10, 122, 5, 220))
    ensures Dotted(Quad(10, 122, 5, 220)) == "10.122.5.220"
  {
    var net := Network(V4, Quad(10, 122, 0, 0), 16);
    TestNetwork();
    var u := Unavailable({}, [], net, Dotted);
    var ends := {ProbeText(net, Dotted, 0), ProbeText(net, Dotted, 65535)};
    assert u == ends;
    assert |u| <= 2;
    DottedDistinct(net, 65536);
    assert ProbeText(net, Dotted, 1500) !in ends;
    assert net.base + 1500 == Quad(10, 122, 5, 220);
    DottedExample();
  }
}
