/**
 * Client IP helpers (http/handlerutils/iputils.go). An IP is its byte slice: net.ParseIP gives
 * the 16-byte form, IPv4 addresses mapped into ::ffff:0:0/96. net.ParseIP and
 * IP.IsGlobalUnicast are parameters of GetClientIPAddress.
 */
module IpUtils {
  import opened Wrappers
  import opened GoStrings
  import opened Http

  type IP = seq<bv8>

  /** bytes.Compare: lexicographic order, a proper prefix sorting first. */
  function Compare(a: IP, b: IP): (c: int)
    ensures -1 <= c <= 1
    ensures c == 0 <==> a == b
  {
    if |a| == 0 && |b| == 0 then 0
    else if |a| == 0 then -1
    else if |b| == 0 then 1
    else if a[0] < b[0] then -1
    else if a[0] > b[0] then 1
    else
      var c := Compare(a[1..], b[1..]);
      assert a == [a[0]] + a[1..] && b == [b[0]] + b[1..];
      c
  }

  lemma {:induction false} CompareAntisymmetric(a: IP, b: IP)
    ensures Compare(a, b) == -Compare(b, a)
  {
    if |a| > 0 && |b| > 0 && a[0] == b[0] {
      CompareAntisymmetric(a[1..], b[1..]);
    }
  }

  lemma {:induction false} CompareTransitive(a: IP, b: IP, c: IP)
    requires Compare(a, b) < 0 && Compare(b, c) < 0
    ensures Compare(a, c) < 0
  {
    if |a| > 0 && |b| > 0 && |c| > 0 && a[0] == b[0] && b[0] == c[0] {
      CompareTransitive(a[1..], b[1..], c[1..]);
    }
  }

  datatype IPRange = IPRange(start: IP, end: IP)

  /** IsIPInRange: the half-open interval [start, end) in byte order. */
  predicate IsIPInRange(r: IPRange, ip: IP) {
    Compare(ip, r.start) >= 0 && Compare(ip, r.end) < 0
  }

  /** net.ParseIP of a dotted IPv4 address: the 16-byte IPv4-mapped form. */
  function V4(a: bv8, b: bv8, c: bv8, d: bv8): (ip: IP)
    ensures |ip| == 16
  {
    [0, 0, 0, 0, 0, 0, 0, 0, 0, 0, 0xff, 0xff, a, b, c, d]
  }

  const LanIPRanges: seq<IPRange> := [
    IPRange(V4(10, 0, 0, 0), V4(10, 255, 255, 255)),
    IPRange(V4(172, 16, 0, 0), V4(172, 31, 255, 255)),
    IPRange(V4(192, 168, 0, 0), V4(192, 168, 255, 255))
  ]

  /** IP.To4 is non-nil: a 4-byte IP, or a 16-byte IPv4-mapped one. */
  predicate HasIPv4Form(ip: IP) {
    |ip| == 4 || (|ip| == 16 && ip[..12] == V4(0, 0, 0, 0)[..12])
  }

  predicate InSomeLanRange(ip: IP) {
    exists i :: 0 <= i < |LanIPRanges| && IsIPInRange(LanIPRanges[i], ip)
  }

  /**
   * IsLanIpAddress as written: the IPv4 test is made on To4, but the ranges are compared with
   * the address as given, so a 4-byte address never matches the 16-byte range bounds.
   */
  method IsLanIpAddressAsWritten(ip: IP) returns (lan: bool)
    ensures lan <==> HasIPv4Form(ip) && InSomeLanRange(ip)
  {
    lan := false;
    if HasIPv4Form(ip) {
      for i := 0 to |LanIPRanges|
        invariant !lan
        invariant forall k :: 0 <= k < i ==> !IsIPInRange(LanIPRanges[k], ip)
      {
        if IsIPInRange(LanIPRanges[i], ip) {
          lan := true;
          return;
        }
      }
    }
  }

  /** The 4-byte form of 10.0.0.1 is not recognised as a LAN address by the code as written. */
  lemma FourByteFormMissed()
    ensures HasIPv4Form([10, 0, 0, 1]) && !InSomeLanRange([10, 0, 0, 1])
  {
    var ip: IP := [10, 0, 0, 1];
    forall i | 0 <= i < |LanIPRanges| ensures !IsIPInRange(LanIPRanges[i], ip) {
      assert Compare(ip, LanIPRanges[i].end) == 1;
    }
  }

  /** The 16-byte IPv4-mapped form of an address (IP.To16 of an IPv4 address). */
  function To16(ip: IP): (r: IP)
    requires HasIPv4Form(ip)
    ensures |r| == 16 && HasIPv4Form(r)
  {
    if |ip| == 4 then V4(ip[0], ip[1], ip[2], ip[3]) else ip
  }

  /** IsLanIpAddress as intended: an IPv4 address, in either form, inside one of the private ranges. */
  method IsLanIpAddress(ip: IP) returns (lan: bool)
    ensures lan <==> HasIPv4Form(ip) && InSomeLanRange(To16(ip))
  {
    lan := false;
    if HasIPv4Form(ip) {
      var ip16 := To16(ip);
      for i := 0 to |LanIPRanges|
        invariant !lan
        invariant forall k :: 0 <= k < i ==> !IsIPInRange(LanIPRanges[k], ip16)
      {
        if IsIPInRange(LanIPRanges[i], ip16) {
          lan := true;
          return;
        }
      }
    }
  }

  /** The intended test agrees with the one as written on the 16-byte addresses net.ParseIP returns. */
  lemma LanAgreesOn16Bytes(ip: IP)
    requires |ip| == 16
    ensures (HasIPv4Form(ip) && InSomeLanRange(To16(ip))) <==> (HasIPv4Form(ip) && InSomeLanRange(ip))
  {
  }

  /** Membership of the first range spelled out: 10.0.0.0 up to, but not including, 10.255.255.255. */
  lemma TenRange(b: bv8, c: bv8, d: bv8)
    ensures IsIPInRange(LanIPRanges[0], V4(10, b, c, d)) <==> !(b == 255 && c == 255 && d == 255)
  {
    var ip, hi := V4(10, b, c, d), V4(10, 255, 255, 255);
    assert LanIPRanges[0] == IPRange(V4(10, 0, 0, 0), hi);
    TenLower(b, c, d);
    if b == 255 && c == 255 && d == 255 {
      assert ip == hi;
    } else {
      TenUpper(b, c, d);
    }
  }

  lemma TenLower(b: bv8, c: bv8, d: bv8)
    ensures Compare(V4(10, b, c, d), V4(10, 0, 0, 0)) >= 0
  {
    var p := V4(10, 0, 0, 0)[..13];
    assert V4(10, b, c, d) == p + [b, c, d] && V4(10, 0, 0, 0) == p + [0, 0, 0];
    CompareAfterPrefix(p, [b, c, d], [0, 0, 0]);
    CompareSmallestBytes([b, c, d]);
  }

  lemma TenUpper(b: bv8, c: bv8, d: bv8)
    requires !(b == 255 && c == 255 && d == 255)
    ensures Compare(V4(10, b, c, d), V4(10, 255, 255, 255)) < 0
  {
    var p := V4(10, 0, 0, 0)[..13];
    assert V4(10, b, c, d) == p + [b, c, d] && V4(10, 255, 255, 255) == p + [255, 255, 255];
    CompareAfterPrefix(p, [b, c, d], [255, 255, 255]);
    CompareBelowAllOnes([b, c, d]);
  }

  lemma CompareAfterPrefix(p: IP, t: IP, u: IP)
    ensures Compare(p + t, p + u) == Compare(t, u)
  {
    assert (p + t)[..|p|] == p == (p + u)[..|p|];
    CompareFromCommonPrefix(p + t, p + u, |p|);
    assert (p + t)[|p|..] == t && (p + u)[|p|..] == u;
  }

  /** The upper bounds themselves are outside their ranges. */
  lemma RangeEndsAreNotLan()
    ensures !IsIPInRange(LanIPRanges[0], V4(10, 255, 255, 255))
    ensures !IsIPInRange(LanIPRanges[1], V4(172, 31, 255, 255))
    ensures !IsIPInRange(LanIPRanges[2], V4(192, 168, 255, 255))
  {
  }

  lemma {:induction false} CompareFromCommonPrefix(a: IP, b: IP, n: nat)
    requires n <= |a| && n <= |b| && a[..n] == b[..n]
    ensures Compare(a, b) == Compare(a[n..], b[n..])
    decreases n
  {
    if n > 0 {
      assert a[0] == a[..n][0] == b[..n][0] == b[0];
      assert a[1..][..n - 1] == a[..n][1..] && b[1..][..n - 1] == b[..n][1..];
      CompareFromCommonPrefix(a[1..], b[1..], n - 1);
      assert a[1..][n - 1..] == a[n..] && b[1..][n - 1..] == b[n..];
    }
  }

  lemma CompareStep(a: IP, b: IP)
    requires |a| > 0 && |b| > 0 && a[0] == b[0]
    ensures Compare(a, b) == Compare(a[1..], b[1..])
  {
  }

  lemma CompareSmallestBytes(t: IP)
    requires |t| == 3
    ensures Compare(t, [0, 0, 0]) >= 0
  {
    var z: IP := [0, 0, 0];
    if t[0] == 0 {
      CompareStep(t, z);
      var t1, z1 := t[1..], z[1..];
      if t1[0] == 0 {
        CompareStep(t1, z1);
        var t2, z2 := t1[1..], z1[1..];
        assert |t2| == 1 && z2 == [0];
        assert Compare(t2, z2) >= 0 by {
          if t2[0] == 0 { CompareStep(t2, z2); assert t2[1..] == []; }
        }
      }
    }
  }

  lemma CompareBelowAllOnes(t: IP)
    requires |t| == 3 && !(t[0] == 255 && t[1] == 255 && t[2] == 255)
    ensures Compare(t, [255, 255, 255]) < 0
  {
    var m: IP := [255, 255, 255];
    if t[0] == 255 {
      CompareStep(t, m);
      var t1, m1 := t[1..], m[1..];
      assert t1[0] == t[1] && t1[1] == t[2];
      if t1[0] == 255 {
        CompareStep(t1, m1);
        var t2, m2 := t1[1..], m1[1..];
        assert |t2| == 1 && m2 == [255] && t2[0] == t[2] && t2[0] != 255;
      }
    }
  }

  // ---------------------------------------------------------------------------------------------
  // GetClientIPAddress

  /**
   * An entry is taken when it parses to a global unicast address that IsLanIpAddress, as written,
   * does not call a LAN address.
   */
  predicate Usable(ip: string, parseIP: string -> Option<IP>, isGlobalUnicast: IP -> bool) {
    parseIP(ip).Some? && isGlobalUnicast(parseIP(ip).value) &&
    !(HasIPv4Form(parseIP(ip).value) && InSomeLanRange(parseIP(ip).value))
  }

  /** The rightmost usable entry (trimmed) of a comma-separated list, if any. */
  function RightmostUsable(addresses: seq<string>, parseIP: string -> Option<IP>, isGlobalUnicast: IP -> bool): (r: Option<string>)
    ensures r.Some? ==> Usable(r.value, parseIP, isGlobalUnicast)
  {
    if |addresses| == 0 then None
    else
      var ip := TrimSpace(addresses[|addresses| - 1]);
      if Usable(ip, parseIP, isGlobalUnicast) then Some(ip)
      else RightmostUsable(addresses[..|addresses| - 1], parseIP, isGlobalUnicast)
  }

  const ClientIPHeaders: seq<string> := ["X-Forwarded-For", "X-Real-Ip"]

  /** The client address: X-Forwarded-For first, then X-Real-Ip, each scanned right to left; "" when nothing qualifies. */
  function ClientIP(h: Header, parseIP: string -> Option<IP>, isGlobalUnicast: IP -> bool): string {
    match RightmostUsable(Entries(h, "X-Forwarded-For"), parseIP, isGlobalUnicast)
    case Some(ip) => ip
    case None =>
      match RightmostUsable(Entries(h, "X-Real-Ip"), parseIP, isGlobalUnicast)
      case Some(ip) => ip
      case None => ""
  }

  /** The comma-separated entries of a header. */
  function Entries(h: Header, key: string): seq<string> {
    Split(HeaderGet(h, key), ',')
  }

  /** The inner loop of GetClientIPAddress: entries scanned from the right, trimmed and checked. */
  method ScanRightToLeft(addresses: seq<string>, parseIP: string -> Option<IP>, isGlobalUnicast: IP -> bool)
    returns (found: Option<string>)
    ensures found == RightmostUsable(addresses, parseIP, isGlobalUnicast)
  {
    var i := |addresses| - 1;
    assert addresses[..i + 1] == addresses;
    while i >= 0
      invariant -1 <= i < |addresses|
      invariant RightmostUsable(addresses, parseIP, isGlobalUnicast) == RightmostUsable(addresses[..i + 1], parseIP, isGlobalUnicast)
      decreases i
    {
      var ip := TrimSpace(addresses[i]);
      RightmostUsableStep(addresses, i, parseIP, isGlobalUnicast);
      if Usable(ip, parseIP, isGlobalUnicast) {
        return Some(ip);
      }
      i := i - 1;
    }
    assert addresses[..i + 1] == [];
    return None;
  }

  /** One step of the scan: entry i is taken when usable, otherwise the prefix before it decides. */
  lemma RightmostUsableStep(addresses: seq<string>, i: nat, parseIP: string -> Option<IP>, isGlobalUnicast: IP -> bool)
    requires i < |addresses|
    ensures var ip := TrimSpace(addresses[i]);
      RightmostUsable(addresses[..i + 1], parseIP, isGlobalUnicast)
      == if Usable(ip, parseIP, isGlobalUnicast) then Some(ip) else RightmostUsable(addresses[..i], parseIP, isGlobalUnicast)
  {
    var p := addresses[..i + 1];
    assert p[|p| - 1] == addresses[i] && p[..|p| - 1] == addresses[..i];
  }

  /** GetClientIPAddress: X-Forwarded-For then X-Real-Ip, proved against ClientIP. */
  method GetClientIPAddress(r: Request, parseIP: string -> Option<IP>, isGlobalUnicast: IP -> bool) returns (ip: string)
    ensures ip == ClientIP(r.header, parseIP, isGlobalUnicast)
  {
    var headers := ClientIPHeaders;
    assert headers[0] == "X-Forwarded-For" && headers[1] == "X-Real-Ip";
    for n := 0 to |headers|
      invariant forall k :: 0 <= k < n ==> RightmostUsable(Entries(r.header, headers[k]), parseIP, isGlobalUnicast).None?
    {
      var found := ScanRightToLeft(Entries(r.header, headers[n]), parseIP, isGlobalUnicast);
      if found.Some? {
        ip := found.value;
        assert n == 1 ==> RightmostUsable(Entries(r.header, headers[0]), parseIP, isGlobalUnicast).None?;
        return;
      }
    }
    assert RightmostUsable(Entries(r.header, headers[0]), parseIP, isGlobalUnicast).None?;
    assert RightmostUsable(Entries(r.header, headers[1]), parseIP, isGlobalUnicast).None?;
    ip := "";
  }

  /**
   * The address returned is the trimmed entry at some index k, and every entry to its right is
   * unusable; no address is returned only when no entry is usable.
   */
  lemma {:induction false} RightmostIsChosen(addresses: seq<string>, parseIP: string -> Option<IP>, isGlobalUnicast: IP -> bool)
    returns (k: int)
    ensures -1 <= k < |addresses|
    ensures k == -1 <==> RightmostUsable(addresses, parseIP, isGlobalUnicast).None?
    ensures k >= 0 ==> TrimSpace(addresses[k]) == RightmostUsable(addresses, parseIP, isGlobalUnicast).value
    ensures forall j :: k < j < |addresses| ==> !Usable(TrimSpace(addresses[j]), parseIP, isGlobalUnicast)
    decreases |addresses|
  {
    if |addresses| == 0 {
      k := -1;
    } else if Usable(TrimSpace(addresses[|addresses| - 1]), parseIP, isGlobalUnicast) {
      k := |addresses| - 1;
    } else {
      var init := addresses[..|addresses| - 1];
      k := RightmostIsChosen(init, parseIP, isGlobalUnicast);
      assert forall j :: k < j < |init| ==> init[j] == addresses[j];
    }
  }

  /** X-Forwarded-For wins: when it has a usable entry, X-Real-Ip is not looked at. */
  lemma ForwardedForFirst(h: Header, parseIP: string -> Option<IP>, isGlobalUnicast: IP -> bool)
    ensures var fwd := RightmostUsable(Entries(h, "X-Forwarded-For"), parseIP, isGlobalUnicast);
      fwd.Some? ==> ClientIP(h, parseIP, isGlobalUnicast) == fwd.value
    ensures var fwd := RightmostUsable(Entries(h, "X-Forwarded-For"), parseIP, isGlobalUnicast);
      var xri := RightmostUsable(Entries(h, "X-Real-Ip"), parseIP, isGlobalUnicast);
      fwd.None? && xri.None? ==> ClientIP(h, parseIP, isGlobalUnicast) == ""
    ensures ClientIP(h, parseIP, isGlobalUnicast) == "" || Usable(ClientIP(h, parseIP, isGlobalUnicast), parseIP, isGlobalUnicast)
  {
  }
}
