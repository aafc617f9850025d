/**
 * The `reconf` command: `reconf:<ip>:<anything>:<port>` asks the CH9121
 * bridge to switch its target address. The bridge call itself is
 * represented by the effect it is given.
 */
module ReconfCommand {
  import opened Common
  import opened CText

  const Dot: char8 := '.'

  const FormatError: seq<char8> := "Invalid reconf command format"
  const ValueError: seq<char8> := "Invalid IP or port format"

  /** What one `process` call does: one bridge call, or one diagnostic line (`Serial.println`). */
  datatype ReconfEffect =
    | Reconfigure(ip: seq<u8>, port: u16)
    | Diagnostic(line: seq<char8>)

  /**
   * `sscanf` with `n` `%d` conversions separated by literal dots: every
   * conversion must succeed and each dot must follow its number directly.
   * Characters after the last number are not looked at.
   */
  function ScanFields(s: seq<char8>, n: nat): (r: Option<seq<int>>)
    requires n >= 1
    ensures r.Some? ==> |r.value| == n
    decreases n
  {
    match ScanInteger(s)
    case None => None
    case Some(sc) =>
      if n == 1 then Some([sc.value])
      else if sc.end < |s| && s[sc.end] == '.' then
        match ScanFields(s[sc.end + 1..], n - 1)
        case None => None
        case Some(rest) => Some([sc.value] + rest)
      else None
  }

  predicate IsOctet(v: int) { 0 <= v <= 255 }

  /** Index of the first value outside 0..255, or |vs| when there is none. */
  function FirstNonOctet(vs: seq<int>): (k: nat)
    ensures k <= |vs|
    ensures forall i :: 0 <= i < k ==> IsOctet(vs[i])
    ensures k < |vs| ==> !IsOctet(vs[k])
  {
    if vs == [] || !IsOctet(vs[0]) then 0 else 1 + FirstNonOctet(vs[1..])
  }

  /** The address `parseIPAddress` accepts in `s`, if any. */
  function Octets(s: seq<char8>): (r: Option<seq<u8>>)
    ensures r.Some? ==> |r.value| == 4
  {
    match ScanFields(s, 4)
    case None => None
    case Some(vs) =>
      if FirstNonOctet(vs) == 4 then Some(seq(4, i requires 0 <= i < 4 => vs[i] as u8)) else None
  }

  /**
   * The contents of `ip` after `parseIPAddress`: the loop stores values
   * in order and stops at the first one out of range.
   */
  ghost function AfterParse(before: seq<u8>, s: seq<char8>): seq<u8>
    requires |before| == 4
  {
    match ScanFields(s, 4)
    case None => before
    case Some(vs) =>
      var k := FirstNonOctet(vs);
      seq(4, i requires 0 <= i < 4 => if i < k then vs[i] as u8 else before[i])
  }

  /** What the copy loop leaves in `ip` is `AfterParse`, and the whole address when every value is in range. */
  lemma AfterParseOf(before: seq<u8>, after: seq<u8>, s: seq<char8>, vs: seq<int>, ok: bool)
    requires |before| == 4 && |after| == 4 && ScanFields(s, 4) == Some(vs)
    requires ok <==> FirstNonOctet(vs) == 4
    requires forall j :: 0 <= j < 4 ==> after[j] == if j < FirstNonOctet(vs) then vs[j] as u8 else before[j]
    ensures ok == Octets(s).Some?
    ensures after == AfterParse(before, s)
    ensures ok ==> after == Octets(s).value
  {
  }

  /** `parseIPAddress(str, ip)`: the `sscanf` call, then the range-checking copy loop. */
  method ParseIPAddress(str: seq<char8>, ip: array<u8>) returns (ok: bool)
    requires ip.Length == 4
    modifies ip
    ensures ok == Octets(str).Some?
    ensures ok ==> ip[..] == Octets(str).value
    ensures ip[..] == AfterParse(old(ip[..]), str)
  {
    var scanned := ScanFields(str, 4);
    if scanned.None? {
      return false;
    }
    ghost var before := ip[..];
    ok := StoreOctets(scanned.value, ip);
    AfterParseOf(before, ip[..], str, scanned.value, ok);
  }

  /** The loop of `parseIPAddress`: copy values in order, stop at the first one out of range. */
  method StoreOctets(values: seq<int>, ip: array<u8>) returns (ok: bool)
    requires ip.Length == 4 && |values| == 4
    modifies ip
    ensures ok <==> FirstNonOctet(values) == 4
    ensures forall j :: 0 <= j < 4 ==>
      ip[j] == if j < FirstNonOctet(values) then values[j] as u8 else old(ip[j])
  {
    ghost var k := FirstNonOctet(values);
    for i := 0 to 4
      invariant i <= k
      invariant forall j :: 0 <= j < i ==> ip[j] == values[j] as u8
      invariant forall j :: i <= j < 4 ==> ip[j] == old(ip[j])
    {
      if values[i] < 0 || values[i] > 255 {
        return false;
      }
      ip[i] := values[i] as u8;
    }
    return true;
  }

  /** What `process(args)` does, as a function of its argument text. */
  function Reconf(args: seq<char8>): (e: ReconfEffect)
    ensures e.Reconfigure? ==> e.port != 0 && |e.ip| == 4
  {
    match PortText(args)
    case None => Diagnostic(FormatError)
    case Some(portText) => Outcome(Octets(args), Atoi(portText))
  }

  /** The view `port_str`: what follows the second colon, when there are two. */
  function PortText(args: seq<char8>): (r: Option<seq<char8>>)
    ensures r.Some? ==> |r.value| < |args| - 1
    ensures r.Some? ==> exists c1: nat, c2: nat :: FirstTwoColons(args, c1, c2) && r.value == args[c2 + 1..]
  {
    match Find(args, ':', 0)
    case None => None
    case Some(colon1) =>
      var rest := args[colon1 + 1..];
      match Find(rest, ':', 0)
      case None => None
      case Some(colon2) =>
        FindFirst(args, ':', 0);
        FindFirst(rest, ':', 0);
        assert forall k :: 0 <= k < |rest| ==> rest[k] == args[colon1 + 1 + k];
        assert FirstTwoColons(args, colon1, colon1 + 1 + colon2);
        assert rest[colon2 + 1..] == args[colon1 + 1 + colon2 + 1..];
        Some(rest[colon2 + 1..])
  }

  /** The result once both colons are found: the address must scan and the port, truncated to 16 bits, be non-zero. */
  function Outcome(ip: Option<seq<u8>>, port: int): (e: ReconfEffect)
    ensures e.Reconfigure? <==> ip.Some? && port % 0x1_0000 != 0
    ensures e.Reconfigure? ==> e.ip == ip.value && e.port == port % 0x1_0000
    ensures e.Diagnostic? ==> e.line == ValueError
  {
    var p := port % 0x1_0000;
    if ip.Some? && p > 0 then Reconfigure(ip.value, p) else Diagnostic(ValueError)
  }

  /**
   * `ReconfCommand::process`. The address is scanned from the start of the
   * arguments, where the view `ip_str` starts; the scan stops at the colon.
   */
  method Process(args: seq<char8>) returns (effect: ReconfEffect)
    ensures effect == Reconf(args)
  {
    var colon1 := Find(args, ':', 0);
    if colon1.None? {
      return Diagnostic(FormatError);
    }
    var rest := args[colon1.value + 1..];
    var colon2 := Find(rest, ':', 0);
    if colon2.None? {
      return Diagnostic(FormatError);
    }
    var portText := rest[colon2.value + 1..];
    assert PortText(args) == Some(portText);
    var newPort: u16 := Atoi(portText) % 0x1_0000;
    var newIp := new u8[4];
    var parsed := ParseIPAddress(args, newIp);
    if parsed && newPort > 0 {
      effect := Reconfigure(newIp[..], newPort);
    } else {
      effect := Diagnostic(ValueError);
    }
  }

  /** Numbers written in decimal and joined by dots, as an address is written. */
  function Dotted(ip: seq<u8>): (s: seq<char8>)
    requires |ip| >= 1
    ensures |s| > 0 && IsDigit(s[|s| - 1])
    ensures forall k :: 0 <= k < |s| ==> IsDigit(s[k]) || s[k] == Dot
  {
    if |ip| == 1 then Decimal(ip[0]) else Decimal(ip[0]) + [Dot] + Dotted(ip[1..])
  }

  function Ints(ip: seq<u8>): (vs: seq<int>)
    ensures |vs| == |ip| && forall i :: 0 <= i < |ip| ==> vs[i] == ip[i] as int
  {
    if ip == [] then [] else [ip[0] as int] + Ints(ip[1..])
  }

  /**
   * The dotted form of `n` numbers scans back as those numbers; whatever
   * follows it, unless a digit, is not looked at.
   */
  lemma {:induction false} DottedScans(ip: seq<u8>, rest: seq<char8>, n: nat)
    requires n == |ip| >= 1
    requires rest == [] || !IsDigit(rest[0])
    ensures ScanFields(Dotted(ip) + rest, n) == Some(Ints(ip))
  {
    if n == 1 {
      var whole := Decimal(ip[0]) + rest;
      assert Dotted(ip) + rest == whole;
      DecimalScans(ip[0], rest);
      assert Ints(ip) == [ip[0] as int];
    } else {
      var tail := Dotted(ip[1..]) + rest;
      DottedScans(ip[1..], rest, n - 1);
      DotThenFields(ip[0], tail, n, Ints(ip[1..]));
      DottedUnfold(ip, rest);
      IntsUnfold(ip);
    }
  }

  lemma DottedUnfold(ip: seq<u8>, rest: seq<char8>)
    requires |ip| >= 2
    ensures Dotted(ip) + rest == Decimal(ip[0]) + [Dot] + (Dotted(ip[1..]) + rest)
  {
  }

  lemma IntsUnfold(ip: seq<u8>)
    requires |ip| >= 1
    ensures Ints(ip) == [ip[0] as int] + Ints(ip[1..])
  {
  }

  /** Parsing an address written in dotted form gives it back. */
  lemma DottedRoundTrip(ip: seq<u8>, rest: seq<char8>)
    requires |ip| == 4
    requires rest == [] || !IsDigit(rest[0])
    ensures Octets(Dotted(ip) + rest) == Some(ip)
  {
    DottedScans(ip, rest, 4);
    OctetsOfFields(Dotted(ip) + rest, Ints(ip), ip);
  }

  lemma OctetsOfFields(s: seq<char8>, vs: seq<int>, ip: seq<u8>)
    requires ScanFields(s, 4) == Some(vs) && |ip| == 4
    requires forall i :: 0 <= i < 4 ==> vs[i] == ip[i] as int
    ensures Octets(s) == Some(ip)
  {
    AllOctets(vs, ip);
    assert seq(4, i requires 0 <= i < 4 => vs[i] as u8) == ip;
  }

  lemma AllOctets(vs: seq<int>, ip: seq<u8>)
    requires |vs| == 4 && |ip| == 4
    requires forall i :: 0 <= i < 4 ==> vs[i] == ip[i] as int
    ensures FirstNonOctet(vs) == 4
  {
    assert vs[1..][1..][1..][1..] == [];
  }

  /** One number and a dot, then the other `m - 1` fields. */
  lemma DotThenFields(v: nat, s: seq<char8>, m: nat, vs: seq<int>)
    requires m >= 2 && ScanFields(s, m - 1) == Some(vs)
    ensures ScanFields(Decimal(v) + [Dot] + s, m) == Some([v] + vs)
  {
    var d := Decimal(v);
    DotSplit(d, s);
    DecimalScans(v, [Dot] + s);
    FieldStep(d + ([Dot] + s), v, |d|, s, m, vs);
  }

  lemma DotSplit(d: seq<char8>, s: seq<char8>)
    ensures d + [Dot] + s == d + ([Dot] + s)
    ensures (d + ([Dot] + s))[|d|] == Dot && (d + ([Dot] + s))[|d| + 1..] == s
  {
    assert (d + ([Dot] + s))[|d| + 1..] == s;
  }

  /** `ScanFields` when the first number ends at `end` and a dot follows it. */
  lemma FieldStep(t: seq<char8>, v: int, end: nat, s: seq<char8>, m: nat, vs: seq<int>)
    requires ScanInteger(t) == Some(Scanned(v, end))
    requires end < |t| && t[end] == Dot && t[end + 1..] == s
    requires m >= 2 && ScanFields(s, m - 1) == Some(vs)
    ensures ScanFields(t, m) == Some([v] + vs)
  {
  }

  /** There are two colons in `s`. */
  predicate TwoColons(s: seq<char8>) {
    exists i, j :: 0 <= i < j < |s| && s[i] == ':' && s[j] == ':'
  }

  /** The format diagnostic is printed exactly when the arguments hold fewer than two colons. */
  lemma FormatErrorIffFewerThanTwoColons(args: seq<char8>)
    ensures Reconf(args) == Diagnostic(FormatError) <==> !TwoColons(args)
  {
    FindFirst(args, ':', 0);
    match Find(args, ':', 0)
    case None =>
    case Some(c1) =>
      var rest := args[c1 + 1..];
      FindFirst(rest, ':', 0);
      match Find(rest, ':', 0)
      case None =>
        assert forall k :: c1 < k < |args| ==> args[k] != ':' by {
          forall k | c1 < k < |args| ensures args[k] != ':' {
            assert args[k] == rest[k - c1 - 1];
          }
        }
      case Some(c2) =>
        assert args[c1 + 1 + c2] == ':';
        assert FormatError != ValueError;
  }

  /** A bare `ip:port` has one colon only, so it is rejected as malformed. */
  lemma IpColonPortRejected(ip: seq<u8>, port: nat)
    requires |ip| == 4
    ensures Reconf(Dotted(ip) + [Colon] + Decimal(port)) == Diagnostic(FormatError)
  {
    var s := Dotted(ip) + [Colon] + Decimal(port);
    var c := |Dotted(ip)|;
    assert forall k :: 0 <= k < |s| && k != c ==> s[k] != ':' by {
      forall k | 0 <= k < |s| && k != c ensures s[k] != ':' {
        if k < c {
          assert s[k] == Dotted(ip)[k];
        } else {
          assert s[k] == Decimal(port)[k - c - 1];
        }
      }
    }
    FormatErrorIffFewerThanTwoColons(s);
  }

  /** Where the two colons of `ip:tag:port` are found. */
  lemma SplitDottedTagPort(dotted: seq<char8>, tag: seq<char8>, portText: seq<char8>, s: seq<char8>)
    requires ':' !in dotted && ':' !in tag
    requires s == dotted + ([Colon] + tag + [Colon] + portText)
    ensures Find(s, ':', 0) == Some(|dotted|)
    ensures Find(s[|dotted| + 1..], ':', 0) == Some(|tag|)
    ensures s[|dotted| + 1..][|tag| + 1..] == portText
    ensures PortText(s) == Some(portText)
  {
    assert s[|dotted|] == ':';
    assert forall k :: 0 <= k < |dotted| ==> s[k] == dotted[k];
    FindAt(s, ':', 0, |dotted|);
    var rest := s[|dotted| + 1..];
    assert rest == tag + [Colon] + portText;
    assert rest[|tag|] == ':';
    assert forall k :: 0 <= k < |tag| ==> rest[k] == tag[k];
    FindAt(rest, ':', 0, |tag|);
    assert rest[|tag| + 1..] == portText;
  }

  /** `ip:tag:port` with any address text and port text that hold no colon. */
  lemma TagPortOutcome(dotted: seq<char8>, tag: seq<char8>, portText: seq<char8>, ip: Option<seq<u8>>, port: int)
    requires ':' !in dotted && ':' !in tag
    requires Octets(dotted + ([Colon] + tag + [Colon] + portText)) == ip
    requires Atoi(portText) == port
    ensures Reconf(dotted + [Colon] + tag + [Colon] + portText) == Outcome(ip, port)
  {
    var s := dotted + ([Colon] + tag + [Colon] + portText);
    Regroup(dotted, tag, portText);
    SplitDottedTagPort(dotted, tag, portText, s);
  }

  lemma Regroup(a: seq<char8>, b: seq<char8>, c: seq<char8>)
    ensures a + [Colon] + b + [Colon] + c == a + ([Colon] + b + [Colon] + c)
  {
  }

  lemma NoColonInDotted(ip: seq<u8>)
    requires |ip| >= 1
    ensures ':' !in Dotted(ip)
  {
    var d := Dotted(ip);
    forall k | 0 <= k < |d| ensures d[k] != ':' {
      assert IsDigit(d[k]) || d[k] == Dot;
    }
  }

  lemma AtoiDecimal(n: nat)
    requires n <= LongMax
    ensures Atoi(Decimal(n)) == n
  {
    DecimalScans(n, []);
    assert Decimal(n) + [] == Decimal(n);
  }

  /**
   * The documented form `ip:tag:port`: the middle field is skipped, the port is
   * truncated to 16 bits, and a truncated port of 0 is rejected.
   */
  lemma DottedTagPort(ip: seq<u8>, tag: seq<char8>, port: nat)
    requires |ip| == 4 && ':' !in tag && port <= LongMax
    ensures Reconf(Dotted(ip) + [Colon] + tag + [Colon] + Decimal(port)) ==
      if port % 0x1_0000 == 0 then Diagnostic(ValueError) else Reconfigure(ip, port % 0x1_0000)
  {
    var portText := Decimal(port);
    NoColonInDotted(ip);
    AtoiDecimal(port);
    DottedRoundTrip(ip, [Colon] + tag + [Colon] + portText);
    TagPortOutcome(Dotted(ip), tag, portText, Some(ip), port);
  }
}
