/** Origin server lists of the web application firewall: "ip:port, ip:port, ...". */
module Origins {
  import opened Text
  import opened Decimal
  import opened Codec

  const TWO63: nat := 0x8000_0000_0000_0000

  /** `strconv.Atoi` succeeds: an optional sign and a 64-bit magnitude. */
  predicate IsInt(s: string) {
    var neg := s != "" && s[0] == '-';
    var d := if s != "" && (s[0] == '-' || s[0] == '+') then s[1..] else s;
    d != "" && AllDigits(d) && Number(d) < (if neg then TWO63 + 1 else TWO63)
  }

  /** `strings.LastIndex` of a colon, or None. */
  function LastColon(s: string): (r: Option<nat>)
    ensures r.Some? ==> r.value < |s| && s[r.value] == ':' && ':' !in s[r.value + 1..]
    ensures r.None? ==> ':' !in s
  {
    if s == "" then None
    else if s[|s| - 1] == ':' then Some(|s| - 1)
    else
      var r := LastColon(s[..|s| - 1]);
      assert s == s[..|s| - 1] + [s[|s| - 1]];
      assert r.Some? ==> s[r.value + 1..] == s[..|s| - 1][r.value + 1..] + [s[|s| - 1]];
      r
  }

  /** `ParseOriginIP`. */
  function OriginIp(hostPort: string): (ip: string)
    ensures Trimmed(ip)
  {
    var s := Trim(hostPort);
    var i := LastColon(s);
    if i.Some? && i.value > 0 && IsInt(s[i.value + 1..]) then Trim(s[..i.value]) else s
  }

  function OriginIpAll(parts: seq<string>): (ips: seq<string>)
    ensures |ips| == |parts| && forall i :: 0 <= i < |parts| ==> ips[i] == OriginIp(Trim(parts[i]))
  {
    seq(|parts|, i requires 0 <= i < |parts| => OriginIp(Trim(parts[i])))
  }

  /** The distinct non-blank origins of a list, in order. */
  function OriginIps(servers: string): seq<string> {
    CleanList(OriginIpAll(Split(servers, ',')))
  }

  /** `ParseOriginIPs`. */
  method ParseOriginIps(servers: string) returns (ips: seq<string>)
    ensures ips == OriginIps(servers)
  {
    hide Trim, OriginIp, Split;
    var parts := Split(servers, ',');
    ghost var all := OriginIpAll(parts);
    var seen: set<string> := {};
    ips := [];
    for i := 0 to |parts|
      invariant ips == CleanList(all[..i])
      invariant forall d :: d in seen <==> d in ips
    {
      assert all[..i + 1][..i] == all[..i];
      var ip := OriginIp(Trim(parts[i]));
      if ip == "" || ip in seen { continue; }
      seen := seen + {ip};
      ips := ips + [ip];
    }
    assert all[..|parts|] == all;
  }

  /** A public address is among the origins exactly when some listed server parses to it. */
  lemma OriginListed(servers: string, ip: string)
    requires ip != ""
    ensures ip in OriginIps(servers) <==> exists part :: part in Split(servers, ',') && OriginIp(Trim(part)) == ip
  {
    var parts := Split(servers, ',');
    var all := OriginIpAll(parts);
    if ip in OriginIps(servers) {
      var x :| x in all && Trim(x) == ip;
      var i :| 0 <= i < |all| && all[i] == x;
      assert parts[i] in parts && OriginIp(Trim(parts[i])) == ip;
    }
    forall part | part in parts && OriginIp(Trim(part)) == ip ensures ip in OriginIps(servers) {
      var i :| 0 <= i < |parts| && parts[i] == part;
      assert all[i] == ip && all[i] in all;
    }
  }

  lemma LastColonOf(ip: string, tail: string)
    requires ':' !in tail
    ensures LastColon(ip + ":" + tail) == Some(|ip|)
  {
    var s := ip + ":" + tail;
    var r := LastColon(s);
    assert s[|ip|] == ':' && ':' in s && s[|ip| + 1..] == tail;
    NotAfter(s, ':', |ip| + 1);
    NotAfter(s, ':', r.value + 1);
  }

  lemma DigitsEnd(d: string)
    requires AllDigits(d) && d != ""
    ensures !IsSpace(d[|d| - 1]) && ':' !in d && (Number(d) < TWO63 ==> IsInt(d))
  {}

  /** Printing an address with a port and parsing it gives the address back, for ports of any size
      that fits an integer. */
  lemma PortRoundTrip(ip: string, port: nat)
    requires ip != "" && Trimmed(ip) && port < TWO63
    ensures OriginIp(ip + ":" + Digits(port)) == ip
  {
    var d := Digits(port);
    NumberOfDigits(port);
    DigitsEnd(d);
    PortCut(ip, d);
  }

  lemma PortCut(ip: string, d: string)
    requires ip != "" && Trimmed(ip) && d != "" && !IsSpace(d[|d| - 1]) && ':' !in d && IsInt(d)
    ensures OriginIp(ip + ":" + d) == ip
  {
    var s := ip + ":" + d;
    LastColonOf(ip, d);
    assert s[0] == ip[0] && s[|s| - 1] == d[|d| - 1];
    assert Trim(s) == s;
    assert s[..|ip|] == ip && s[|ip| + 1..] == d;
  }

  /** An address without a port is kept exactly when its last colon, if any, is not followed by an
      integer: a bare IPv6 address whose last group is decimal loses that group. */
  lemma BareAddress(ip: string)
    requires Trimmed(ip)
    ensures OriginIp(ip) == ip <==>
            !(LastColon(ip).Some? && LastColon(ip).value > 0 && IsInt(ip[LastColon(ip).value + 1..]))
  {
    hide IsInt, IsSpace, TrimLeft, TrimRight, Inked, LastColon;
    assert Trim(ip) == ip;
    var i := LastColon(ip);
    if i.Some? { assert |Trim(ip[..i.value])| < |ip|; }
  }
}
