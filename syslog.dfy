/** `SyslogTarget`: the priority value and the datagram it sends for one log
    event (the PRI part of section 4.1.1 of RFC 3164), and the endpoint it
    resolves once. Name resolution and the UDP send become parameters and
    results: the address list that `Dns.GetHostEntry` returned (`None` when
    it threw) goes in, the bytes handed to `SendTo` come out. */
module Syslog {
  import opened Ints
  import opened Wrappers
  import Text

  /** NLog's levels. */
  datatype LogLevel = Trace | Debug | Info | Warn | Error | Fatal | Off

  /** `SyslogFacility`, numbered as the enum declares them: Kernel 0 up to
      Cron 9, then Local0 = 10 .. Local7 = 17. */
  datatype Facility = Kernel | User | Mail | Daemon | Auth | Syslog | Lpr | News | UUCP | Cron
                    | Local0 | Local1 | Local2 | Local3 | Local4 | Local5 | Local6 | Local7
  {
    function Code(): (c: nat)
      ensures c <= 17
    {
      match this
      case Kernel => 0 case User => 1 case Mail => 2 case Daemon => 3
      case Auth => 4 case Syslog => 5 case Lpr => 6 case News => 7
      case UUCP => 8 case Cron => 9 case Local0 => 10 case Local1 => 11
      case Local2 => 12 case Local3 => 13 case Local4 => 14 case Local5 => 15
      case Local6 => 16 case Local7 => 17
    }
  }

  /** Different facilities have different numbers. */
  lemma FacilityCodeInjective(f: Facility, g: Facility)
    requires f.Code() == g.Code()
    ensures f == g
  {
  }

  /** The `SyslogLevel` number for a log level: Info 6, Warn 4, Error 3,
      Fatal 2 (Critical), and Debug 7 for every other level. */
  function Severity(level: LogLevel): (s: nat)
    ensures s <= 7
    ensures s == 7 <==> !(level.Info? || level.Warn? || level.Error? || level.Fatal?)
  {
    if level == Info then 6
    else if level == Warn then 4
    else if level == Error then 3
    else if level == Fatal then 2
    else 7
  }

  /** `facility * 8 + level`: the facility in the high bits, the severity in
      the low three. */
  function Priority(facility: Facility, level: LogLevel): (p: nat)
    ensures p / 8 == facility.Code() && p % 8 == Severity(level)
    ensures p < 144
  {
    facility.Code() * 8 + Severity(level)
  }

  /** The priority determines both the facility and the severity. */
  lemma PriorityInjective(f: Facility, l: LogLevel, g: Facility, m: LogLevel)
    requires Priority(f, l) == Priority(g, m)
    ensures f == g && Severity(l) == Severity(m)
  {
    FacilityCodeInjective(f, g);
  }

  /** The priority in angle brackets, then the message. */
  function Frame(priority: nat, message: string): (s: string)
  {
    "<" + Text.Digits(priority) + ">" + message
  }

  /** The frame starts with the priority in angle brackets, which reads back
      as the priority, and ends with the message unchanged. */
  lemma FrameParts(priority: nat, message: string)
    ensures var s := Frame(priority, message);
            var k := |Text.Digits(priority)|;
            |s| == k + 2 + |message| && s[0] == '<' && s[k + 1] == '>' &&
            Text.AllDigits(s[1..k + 1]) && Text.DigitsValue(s[1..k + 1]) == priority &&
            s[k + 2..] == message
  {
    var s := Frame(priority, message);
    var k := |Text.Digits(priority)|;
    assert s[1..k + 1] == Text.Digits(priority);
    Text.DigitsRoundTrip(priority);
  }

  /** `Encoding.ASCII.GetBytes`: characters above 0x7F become '?'. */
  function Ascii(s: string): (bytes: seq<uint8>)
    ensures |bytes| == |s|
    ensures forall i :: 0 <= i < |s| ==> bytes[i] == (if s[i] as int < 0x80 then s[i] as int else 0x3F)
  {
    seq(|s|, i requires 0 <= i < |s| => if s[i] as int < 0x80 then s[i] as int else 0x3F)
  }

  datatype AddressFamily = InterNetwork | InterNetworkV6 | OtherFamily
  datatype Address = Address(family: AddressFamily, bytes: seq<uint8>)
  datatype Endpoint = Endpoint(address: Address, port: int)

  const Loopback: Address := Address(InterNetwork, [127, 0, 0, 1])

  /** The first IPv4 address of a list. */
  function FirstIPv4(addresses: seq<Address>): (r: Option<Address>)
    ensures r.None? <==> forall i :: 0 <= i < |addresses| ==> addresses[i].family != InterNetwork
    ensures r.Some? ==> r.value.family == InterNetwork && r.value in addresses
  {
    if |addresses| == 0 then None
    else if addresses[0].family == InterNetwork then Some(addresses[0])
    else FirstIPv4(addresses[1..])
  }

  /** The first IPv4 address comes before every other IPv4 address. */
  lemma {:induction false} FirstIPv4IsFirst(addresses: seq<Address>, i: nat)
    requires i < |addresses| && addresses[i].family == InterNetwork
    ensures FirstIPv4(addresses).Some?
    ensures exists j :: 0 <= j <= i && addresses[j] == FirstIPv4(addresses).value &&
                        forall k :: 0 <= k < j ==> addresses[k].family != InterNetwork
  {
    if addresses[0].family != InterNetwork {
      FirstIPv4IsFirst(addresses[1..], i - 1);
      var j :| 0 <= j <= i - 1 && addresses[1..][j] == FirstIPv4(addresses[1..]).value &&
               forall k :: 0 <= k < j ==> addresses[1..][k].family != InterNetwork;
      assert forall k :: 0 <= k < j + 1 ==> addresses[k].family != InterNetwork by {
        forall k | 0 <= k < j + 1 ensures addresses[k].family != InterNetwork {
          if k > 0 {
            assert addresses[k] == addresses[1..][k - 1];
          }
        }
      }
      assert addresses[j + 1] == FirstIPv4(addresses).value;
    } else {
      assert addresses[0] == FirstIPv4(addresses).value;
    }
  }

  class SyslogTarget {
    var host: string
    var port: int
    var facility: Facility
    var endpoint: Option<Endpoint>

    /** Defaults: host 127.0.0.1, port 514, facility User. */
    constructor ()
      ensures host == "127.0.0.1" && port == 514 && facility == User && endpoint == None
    {
      host := "127.0.0.1";
      port := 514;
      facility := User;
      endpoint := None;
    }

    /** Resolves the endpoint on the first call only (the first IPv4 address
        the resolver returned, else loopback), then yields the datagram for
        the event. */
    method Write(level: LogLevel, message: string, resolved: Option<seq<Address>>)
      returns (datagram: seq<uint8>)
      modifies this
      ensures host == old(host) && port == old(port) && facility == old(facility)
      ensures old(endpoint).Some? ==> endpoint == old(endpoint)
      ensures old(endpoint).None? ==>
        endpoint == Some(Endpoint(ResolvedAddress(resolved), port))
      ensures datagram == Ascii(Frame(Priority(facility, level), message))
    {
      if endpoint.None? {
        if resolved.Some? {
          var list := resolved.value;
          var i := 0;
          while i < |list|
            invariant 0 <= i <= |list|
            invariant FirstIPv4(list) == FirstIPv4(list[i..])
            invariant endpoint.None?
          {
            if list[i].family == InterNetwork {
              endpoint := Some(Endpoint(list[i], port));
              break;
            }
            assert list[i..][1..] == list[i + 1..];
            i := i + 1;
          }
        }
        if endpoint.None? {
          endpoint := Some(Endpoint(Loopback, port));
        }
      }
      var priority := facility.Code() * 8 + Severity(level);
      datagram := Ascii(Frame(priority, message));
    }
  }

  /** The address `Write` settles on: the first IPv4 address of a successful
      resolution, else loopback. */
  function ResolvedAddress(resolved: Option<seq<Address>>): (a: Address)
    ensures a.family == InterNetwork
    ensures resolved.Some? && FirstIPv4(resolved.value).Some? ==> a in resolved.value
  {
    if resolved.Some? && FirstIPv4(resolved.value).Some? then FirstIPv4(resolved.value).value
    else Loopback
  }
}
