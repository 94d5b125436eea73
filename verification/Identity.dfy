/** Who a VM is, told twice: written on the kernel command line of a VM that boots,
    sent over RPC to a VM restored from a template. */
module Identity {
  import opened Text
  import opened Wrappers
  import Decimal

  // ----- what the host knows

  datatype NetworkConfig = NetworkConfig(interfaceName: string, ip: string, gateway: string, netmask: string,
                                         dns: seq<string>)

  /** The counts are 64-bit ints in the source. */
  datatype Machine = Machine(network: Option<NetworkConfig>, mac: string, diskCount: int, extrasIndex: Option<int>)

  predicate IsInt(n: int) { -Decimal.MAX_INT - 1 <= n <= Decimal.MAX_INT }

  // ----- what the guest makes of it

  datatype NetworkIdentity = NetworkIdentity(ip: string, gateway: string, netmask: string, device: string,
                                             dns: seq<string>,
                                             mac: string, metadataRoute: bool)

  datatype Identity = Identity(network: Option<NetworkIdentity>, blockDevices: int, extrasDisk: string,
                               extrasForce: bool)

  const UNKNOWN_DISK_COUNT := -1

  /** The character of a code point, or the replacement character. */
  function Rune(n: int): char {
    if 0 <= n < 0xD800 || 0xE000 <= n < 0x11_0000 then n as char else 0xFFFD as char
  }

  function DiskDevice(index: int): string { "/dev/vd" + [Rune('a' as int + index)] }

  function PrintInt(n: int): string { if n < 0 then "-" + Decimal.Print(0 - n) else Decimal.Print(n) }

  lemma AtoiPrintInt(n: int)
    requires IsInt(n)
    ensures Decimal.Atoi(PrintInt(n)) == Some(n)
  {
    if n < 0 {
      assert PrintInt(n)[1..] == Decimal.Print(0 - n);
      Decimal.ValuePrint(0 - n);
    } else {
      Decimal.AtoiPrint(n);
    }
  }

  // ----- the command line, as the host writes it

  const IP := "ip="
  const DISKS := "spin.disks="
  const EXTRAS := "spin.extras_disk="
  const METADATA := "spin.metadata_addr="
  const FORCE := "spin.extras_force"

  function FirstTwo(dns: seq<string>): seq<string> { if |dns| <= 2 then dns else dns[..2] }

  function DnsSuffix(dns: seq<string>): string { if dns == [] then "" else ":" + dns[0] + DnsSuffix(dns[1..]) }

  /** client:server:gateway:netmask:hostname:device:autoconf[:dns0[:dns1]] */
  function NetworkValue(c: NetworkConfig): string {
    c.ip + "::" + c.gateway + ":" + c.netmask + "::eth0:none" + DnsSuffix(FirstTwo(c.dns))
  }

  function NetworkParam(c: NetworkConfig): string { if c.ip == "" then "" else IP + NetworkValue(c) }

  function SystemParams(): seq<string> { ["systemd.show_status=0", "systemd.log_level=warning"] }

  function NetworkParams(m: Machine): seq<string> {
    if m.network.Some? && NetworkParam(m.network.value) != "" then [NetworkParam(m.network.value)] else []
  }

  function DiskParams(m: Machine): seq<string> { [DISKS + PrintInt(m.diskCount)] }

  function ExtrasParams(m: Machine): seq<string> {
    if m.extrasIndex.Some? then [EXTRAS + PrintInt(m.extrasIndex.value)] else []
  }

  function GuestParams(m: Machine): seq<string> {
    SystemParams() + NetworkParams(m) + DiskParams(m) + ExtrasParams(m)
  }

  /** The guest's parameters among others, one line ended by a newline. */
  function CommandLine(before: seq<string>, m: Machine, after: seq<string>): string {
    Join(before + GuestParams(m) + after, ' ') + "\n"
  }

  // ----- the command line, as the guest reads it

  function FirstValue(tokens: seq<string>, prefix: string): Option<string> {
    if tokens == [] then None
    else if CutPrefix(tokens[0], prefix).Some? then CutPrefix(tokens[0], prefix)
    else FirstValue(tokens[1..], prefix)
  }

  function Field(parts: seq<string>, i: nat): string { if i < |parts| then parts[i] else "" }

  function NonEmpty(names: seq<string>): seq<string> {
    if names == [] then [] else (if names[0] != "" then [names[0]] else []) + NonEmpty(names[1..])
  }

  function ReadNetwork(v: string): NetworkIdentity {
    var parts := Split(v, ':');
    var dns7 := if Field(parts, 7) != "" then [Field(parts, 7)] else [];
    var dns8 := if Field(parts, 8) != "" then [Field(parts, 8)] else [];
    NetworkIdentity(Field(parts, 0), Field(parts, 2), Field(parts, 3), Field(parts, 5), dns7 + dns8, "", false)
  }

  datatype Extras = Extras(device: string, force: bool)

  function ReadExtra(sofar: Extras, token: string): Result<Extras> {
    var force := sofar.force || token == FORCE + "=1" || token == FORCE;
    match CutPrefix(token, EXTRAS)
    case None => Ok(Extras(sofar.device, force))
    case Some(v) =>
      match Decimal.Atoi(v)
      case None => Fail
      case Some(index) => Ok(Extras(DiskDevice(index), force))
  }

  /** Later parameters win; one that does not parse spoils them all. */
  function ReadExtras(tokens: seq<string>): Result<Extras> {
    if tokens == [] then Ok(Extras("", false))
    else
      match ReadExtras(tokens[..|tokens| - 1])
      case Fail => Fail
      case Ok(sofar) => ReadExtra(sofar, tokens[|tokens| - 1])
  }

  predicate HasParamIn(tokens: seq<string>, prefix: string) { exists t :: t in tokens && HasPrefix(t, prefix) }

  /** The identity a list of parameters describes. */
  function Described(tokens: seq<string>): Identity {
    var net := FirstValue(tokens, IP);
    var disks := FirstValue(tokens, DISKS);
    var extras := ReadExtras(tokens);
    Identity(
      if net.None? then None else Some(ReadNetwork(net.value).(metadataRoute := HasParamIn(tokens, METADATA))),
      if disks.Some? && Decimal.Atoi(disks.value).Some? then Decimal.Atoi(disks.value).value else UNKNOWN_DISK_COUNT,
      if extras.Ok? then extras.value.device else "",
      extras.Ok? && extras.value.force)
  }

  function Tokens(cmdline: string): seq<string> { Fields(cmdline, IsSpace) }

  method CmdlineValue(cmdline: string, prefix: string) returns (r: Option<string>)
    ensures r == FirstValue(Tokens(cmdline), prefix)
  {
    var tokens := Tokens(cmdline);
    for i := 0 to |tokens|
      invariant FirstValue(tokens, prefix) == FirstValue(tokens[i..], prefix)
    {
      r := CutPrefix(tokens[i], prefix);
      if r.Some? {
        return r;
      }
      assert tokens[i..][1..] == tokens[i + 1..];
    }
    r := None;
  }

  method ParseIPConfig(cmdline: string) returns (r: Option<NetworkIdentity>)
    ensures var v := FirstValue(Tokens(cmdline), IP); r == if v.None? then None else Some(ReadNetwork(v.value))
  {
    var v := CmdlineValue(cmdline, IP);
    r := if v.None? then None else Some(ReadNetwork(v.value));
  }

  method HasParam(cmdline: string, prefix: string) returns (r: bool)
    ensures r == HasParamIn(Tokens(cmdline), prefix)
  {
    var tokens := Tokens(cmdline);
    for i := 0 to |tokens|
      invariant forall j :: 0 <= j < i ==> !HasPrefix(tokens[j], prefix)
    {
      if HasPrefix(tokens[i], prefix) {
        return true;
      }
    }
    r := false;
  }

  lemma {:induction false} ExtrasFailureStays(tokens: seq<string>, n: nat)
    requires n <= |tokens| && ReadExtras(tokens[..n]) == Fail
    ensures ReadExtras(tokens) == Fail
  {
    if n == |tokens| {
      assert tokens[..n] == tokens;
    } else {
      assert tokens[..|tokens| - 1][..n] == tokens[..n];
      ExtrasFailureStays(tokens[..|tokens| - 1], n);
    }
  }

  method ParseExtrasConfig(cmdline: string) returns (r: Result<Extras>)
    ensures r == ReadExtras(Tokens(cmdline))
  {
    var tokens := Tokens(cmdline);
    r := Ok(Extras("", false));
    for i := 0 to |tokens|
      invariant r.Ok? && ReadExtras(tokens[..i]) == r
    {
      assert tokens[..i + 1][..i] == tokens[..i];
      r := ParseExtra(r.value, tokens[i]);
      if r == Fail {
        ExtrasFailureStays(tokens, i + 1);
        return;
      }
    }
    assert tokens[..|tokens|] == tokens;
  }

  method ParseExtra(sofar: Extras, token: string) returns (r: Result<Extras>)
    ensures r == ReadExtra(sofar, token)
  {
    var cfg := sofar;
    var index := CutPrefix(token, EXTRAS);
    if index.Some? {
      var n := Decimal.Atoi(index.value);
      if n.None? {
        return Fail;
      }
      cfg := cfg.(device := DiskDevice(n.value));
    }
    if token == FORCE + "=1" || token == FORCE {
      cfg := cfg.(force := true);
    }
    r := Ok(cfg);
  }

  method FromCmdline(cmdline: string) returns (id: Identity)
    ensures id == Described(Tokens(cmdline))
  {
    id := Identity(None, UNKNOWN_DISK_COUNT, "", false);
    var net := ParseIPConfig(cmdline);
    if net.Some? {
      var route := HasParam(cmdline, METADATA);
      id := id.(network := Some(net.value.(metadataRoute := route)));
    }
    var disks := CmdlineValue(cmdline, DISKS);
    if disks.Some? {
      var n := Decimal.Atoi(disks.value);
      if n.Some? {
        id := id.(blockDevices := n.value);
      }
    }
    var extras := ParseExtrasConfig(cmdline);
    if extras.Ok? {
      id := id.(extrasDisk := extras.value.device, extrasForce := extras.value.force);
    }
  }

  // ----- over RPC

  datatype ConfigureRequest = ConfigureRequest(expectedBlockDevices: int, extrasDisk: string,
                                               network: Option<NetworkConfig>, mac: string)

  /** The conversion to an unsigned 32-bit count keeps the low bits. */
  function ConfigureGuest(m: Machine): ConfigureRequest {
    ConfigureRequest(m.diskCount % 0x1_0000_0000, if m.extrasIndex.Some? then DiskDevice(m.extrasIndex.value) else "",
                     m.network, m.mac)
  }

  function Configure(q: ConfigureRequest): Identity {
    Identity(
      if q.network.None? then None
      else
        var n := q.network.value;
        Some(NetworkIdentity(n.ip, n.gateway, n.netmask, n.interfaceName, n.dns, q.mac, false)),
      q.expectedBlockDevices, q.extrasDisk, false)
  }

  // ----- the parameters survive the line

  predicate Plain(s: string) { ':' !in s && SpaceFree(s, IsSpace) }

  /** What the network configuration must be for one parameter to hold it. */
  predicate Encodable(m: Machine) {
    && IsInt(m.diskCount) && (m.extrasIndex.Some? ==> IsInt(m.extrasIndex.value))
    && (m.network.Some? ==>
          var n := m.network.value;
          Plain(n.ip) && Plain(n.gateway) && Plain(n.netmask) && forall d :: d in n.dns ==> Plain(d))
  }

  /** A token the guest's readers pass over. */
  predicate Foreign(t: string) {
    && IsToken(t, IsSpace) && !HasPrefix(t, IP) && !HasPrefix(t, DISKS) && !HasPrefix(t, EXTRAS)
    && t != FORCE && t != FORCE + "=1"
  }

  lemma SpaceFreeConcat(a: string, b: string)
    requires SpaceFree(a, IsSpace) && SpaceFree(b, IsSpace)
    ensures SpaceFree(a + b, IsSpace)
  {
  }

  lemma {:induction false} DnsSuffixIsSpaceFree(dns: seq<string>)
    requires forall d :: d in dns ==> Plain(d)
    ensures SpaceFree(DnsSuffix(dns), IsSpace)
  {
    if dns != [] {
      assert dns[0] in dns;
      DnsSuffixIsSpaceFree(dns[1..]);
      SpaceFreeConcat(":", dns[0]);
      SpaceFreeConcat(":" + dns[0], DnsSuffix(dns[1..]));
    }
  }

  lemma PrintIntIsSpaceFree(n: int)
    ensures SpaceFree(PrintInt(n), IsSpace)
  {
    if n < 0 {
      SpaceFreeConcat("-", Decimal.Print(0 - n));
    }
  }

  lemma NetworkParamIsToken(n: NetworkConfig)
    requires Plain(n.ip) && Plain(n.gateway) && Plain(n.netmask) && forall d :: d in n.dns ==> Plain(d)
    ensures SpaceFree(NetworkParam(n), IsSpace)
  {
    var dns := DnsSuffix(FirstTwo(n.dns));
    DnsSuffixIsSpaceFree(FirstTwo(n.dns));
    SpaceFreeConcat(n.ip, "::");
    SpaceFreeConcat(n.ip + "::", n.gateway);
    SpaceFreeConcat(n.ip + "::" + n.gateway, ":");
    SpaceFreeConcat(n.ip + "::" + n.gateway + ":", n.netmask);
    SpaceFreeConcat(n.ip + "::" + n.gateway + ":" + n.netmask, "::eth0:none");
    SpaceFreeConcat(n.ip + "::" + n.gateway + ":" + n.netmask + "::eth0:none", dns);
    SpaceFreeConcat(IP, n.ip + "::" + n.gateway + ":" + n.netmask + "::eth0:none" + dns);
  }

  lemma LabelledIntIsToken(name: string, n: int)
    requires IsToken(name, IsSpace)
    ensures IsToken(name + PrintInt(n), IsSpace)
  {
    PrintIntIsSpaceFree(n);
    SpaceFreeConcat(name, PrintInt(n));
  }

  predicate AllTokens(ts: seq<string>) { forall t :: t in ts ==> IsToken(t, IsSpace) }

  lemma DiskParamIsToken(m: Machine)
    ensures AllTokens(DiskParams(m))
  {
    PrintableIsToken(DISKS);
    LabelledIntIsToken(DISKS, m.diskCount);
  }

  lemma ExtrasParamsAreTokens(m: Machine)
    ensures AllTokens(ExtrasParams(m))
  {
    if m.extrasIndex.Some? {
      PrintableIsToken(EXTRAS);
      LabelledIntIsToken(EXTRAS, m.extrasIndex.value);
    }
  }

  lemma NetworkParamsAreTokens(m: Machine)
    requires Encodable(m)
    ensures AllTokens(NetworkParams(m))
  {
    if m.network.Some? {
      NetworkParamIsToken(m.network.value);
    }
  }

  lemma FourParts(a: seq<string>, b: seq<string>, c: seq<string>, d: seq<string>)
    requires AllTokens(a) && AllTokens(b) && AllTokens(c) && AllTokens(d)
    ensures AllTokens(a + b + c + d)
  {
  }

  lemma ParamsAreTokens(m: Machine)
    requires Encodable(m)
    ensures AllTokens(GuestParams(m))
  {
    SystemParamsAreTokens();
    NetworkParamsAreTokens(m);
    DiskParamIsToken(m);
    ExtrasParamsAreTokens(m);
    FourParts(SystemParams(), NetworkParams(m), DiskParams(m), ExtrasParams(m));
  }

  lemma SystemParamsAreForeign()
    ensures forall t :: t in SystemParams() ==> Foreign(t) && !HasPrefix(t, METADATA)
  {
    forall t | t in SystemParams()
      ensures Foreign(t) && !HasPrefix(t, METADATA)
    {
      SystemParamsAreTokens();
      ForeignBySecond(t);
    }
  }

  lemma SystemParamsAreTokens()
    ensures forall t :: t in SystemParams() ==> IsToken(t, IsSpace) && |t| > 1 && t[1] == 'y'
  {
    PrintableIsToken("systemd.show_status=0");
    PrintableIsToken("systemd.log_level=warning");
  }

  lemma PrintableIsToken(t: string)
    requires t != "" && forall i :: 0 <= i < |t| ==> '!' <= t[i] <= '~'
    ensures IsToken(t, IsSpace)
  {
  }

  /** None of the guest's names has that second letter. */
  lemma ForeignBySecond(t: string)
    requires IsToken(t, IsSpace) && |t| > 1 && t[1] == 'y'
    ensures Foreign(t) && !HasPrefix(t, METADATA)
  {
    assert IP[1] == 'p' && DISKS[1] == 'p' && EXTRAS[1] == 'p' && METADATA[1] == 'p' && FORCE[1] == 'p';
  }

  /** Reading the line gives back the tokens it was written from. */
  lemma LineIsReadBack(before: seq<string>, m: Machine, after: seq<string>)
    requires Encodable(m) && (forall t :: t in before + after ==> IsToken(t, IsSpace))
    ensures Tokens(CommandLine(before, m, after)) == before + GuestParams(m) + after
  {
    var tokens := before + GuestParams(m) + after;
    ParamsAreTokens(m);
    forall t | t in tokens
      ensures IsToken(t, IsSpace)
    {
      assert t in GuestParams(m) || t in before + after;
    }
    FieldsOfLine(tokens, "\n", IsSpace);
    assert Fields("\n", IsSpace) == [];
  }

  // ----- finding a parameter among others

  lemma {:induction false} FirstValuePasses(a: seq<string>, b: seq<string>, prefix: string)
    requires forall t :: t in a ==> !HasPrefix(t, prefix)
    ensures FirstValue(a + b, prefix) == FirstValue(b, prefix)
  {
    if a == [] {
      assert a + b == b;
    } else {
      assert a[0] in a && (a + b)[0] == a[0] && (a + b)[1..] == a[1..] + b;
      FirstValuePasses(a[1..], b, prefix);
    }
  }

  lemma FirstValueFound(a: seq<string>, prefix: string, v: string, b: seq<string>)
    requires forall t :: t in a ==> !HasPrefix(t, prefix)
    ensures FirstValue(a + ([prefix + v] + b), prefix) == Some(v)
  {
    FirstValuePasses(a, [prefix + v] + b, prefix);
    CutPrefixOf(prefix, v);
  }

  lemma FirstValueAbsent(a: seq<string>, prefix: string)
    requires forall t :: t in a ==> !HasPrefix(t, prefix)
    ensures FirstValue(a, prefix) == None
  {
    FirstValuePasses(a, [], prefix);
    assert a + [] == a;
  }

  predicate PassedByExtras(t: string) { !HasPrefix(t, EXTRAS) && t != FORCE && t != FORCE + "=1" }

  lemma {:induction false} ExtrasPass(a: seq<string>, b: seq<string>)
    requires ReadExtras(a).Ok? && forall t :: t in b ==> PassedByExtras(t)
    ensures ReadExtras(a + b) == ReadExtras(a)
  {
    if b == [] {
      assert a + b == a;
    } else {
      var n := |b| - 1;
      ExtrasPass(a, b[..n]);
      assert b[n] in b && (a + b)[..|a + b| - 1] == a + b[..n];
    }
  }

  lemma ExtrasFound(a: seq<string>, index: int, b: seq<string>)
    requires IsInt(index) && (forall t :: t in a + b ==> PassedByExtras(t))
    ensures ReadExtras(a + [EXTRAS + PrintInt(index)] + b) == Ok(Extras(DiskDevice(index), false))
  {
    var e := EXTRAS + PrintInt(index);
    ExtrasAbsent(a);
    assert (a + [e])[..|a|] == a;
    CutPrefixOf(EXTRAS, PrintInt(index));
    AtoiPrintInt(index);
    assert e[12] == 'd' && FORCE[12] == 'f';
    ExtrasPass(a + [e], b);
  }

  lemma ExtrasAbsent(a: seq<string>)
    requires forall t :: t in a ==> PassedByExtras(t)
    ensures ReadExtras(a) == Ok(Extras("", false))
  {
    ExtrasPass([], a);
    assert [] + a == a;
  }

  // ----- the network parameter

  lemma {:induction false} DnsSuffixJoins(head: string, dns: seq<string>)
    ensures head + DnsSuffix(dns) == Join([head] + dns, ':')
    decreases |dns|
  {
    if dns == [] {
      assert [head] + dns == [head];
    } else {
      DnsSuffixJoins(dns[0], dns[1..]);
      assert ([head] + dns)[1..] == dns && [dns[0]] + dns[1..] == dns;
      assert head + (":" + dns[0] + DnsSuffix(dns[1..])) == head + [':'] + (dns[0] + DnsSuffix(dns[1..]));
    }
  }

  lemma PrependPart(head: string, parts: seq<string>)
    requires parts != []
    ensures Join([head] + parts, ':') == head + ":" + Join(parts, ':')
  {
    assert ([head] + parts)[1..] == parts;
  }

  /** The parameter is the kernel's nine fields, joined by colons. */
  lemma NetworkParamFields(n: NetworkConfig)
    ensures NetworkValue(n) == Join([n.ip, "", n.gateway, n.netmask, "", "eth0", "none"] + FirstTwo(n.dns), ':')
  {
    var d := FirstTwo(n.dns);
    var p6 := ["none"] + d;
    var p5 := ["eth0"] + p6;
    var p4 := [""] + p5;
    var p3 := [n.netmask] + p4;
    var p2 := [n.gateway] + p3;
    var p1 := [""] + p2;
    DnsSuffixJoins("none", d);
    PrependPart("eth0", p6);
    PrependPart("", p5);
    PrependPart(n.netmask, p4);
    PrependPart(n.gateway, p3);
    PrependPart("", p2);
    PrependPart(n.ip, p1);
    assert [n.ip] + p1 == [n.ip, "", n.gateway, n.netmask, "", "eth0", "none"] + d;
    NetworkParamRegrouped(n.ip, n.gateway, n.netmask, DnsSuffix(d));
  }

  lemma NetworkParamRegrouped(ip: string, gw: string, mask: string, dns: string)
    ensures ip + "::" + gw + ":" + mask + "::eth0:none" + dns
         == ip + ":" + ("" + ":" + (gw + ":" + (mask + ":" + ("" + ":" + ("eth0" + ":" + ("none" + dns))))))
  {
    assert "::eth0:none" == ":" + (":" + ("eth0" + (":" + "none")));
    assert "::" == ":" + ":";
  }

  lemma ReadsBackNetwork(n: NetworkConfig)
    requires Plain(n.ip) && Plain(n.gateway) && Plain(n.netmask) && forall d :: d in n.dns ==> Plain(d)
    ensures ReadNetwork(NetworkValue(n))
         == NetworkIdentity(n.ip, n.gateway, n.netmask, "eth0", NonEmpty(FirstTwo(n.dns)), "", false)
  {
    var d := FirstTwo(n.dns);
    var parts := [n.ip, "", n.gateway, n.netmask, "", "eth0", "none"] + d;
    NetworkParamFields(n);
    forall p | p in parts
      ensures ':' !in p
    {
      assert p in d ==> p in n.dns;
    }
    SplitJoin(parts, ':');
    NonEmptyOfTwo(d);
    assert |d| > 0 ==> parts[7] == d[0];
    assert |d| > 1 ==> parts[8] == d[1];
  }

  lemma NonEmptyOfTwo(d: seq<string>)
    requires |d| <= 2
    ensures NonEmpty(d) == (if Field(d, 0) != "" then [Field(d, 0)] else [])
            + (if Field(d, 1) != "" then [Field(d, 1)] else [])
  {
    if |d| == 2 {
      assert NonEmpty(d[1..]) == (if d[1] != "" then [d[1]] else []) by {
        assert d[1..][1..] == [];
      }
    }
  }

  // ----- the two channels

  /** The groupings of one line of parameters that the searches below need. */
  lemma Regroup(b: seq<string>, s: seq<string>, n: seq<string>, d: seq<string>, x: seq<string>, a: seq<string>)
    ensures b + (s + n + d + x) + a == (b + s) + (n + (d + x + a))
    ensures b + (s + n + d + x) + a == (b + s + n) + (d + (x + a))
    ensures b + (s + n + d + x) + a == (b + s + n + d) + x + a
  {
  }

  lemma FindsNetwork(before: seq<string>, m: Machine, after: seq<string>)
    requires forall t :: t in before + after ==> Foreign(t)
    ensures FirstValue(before + GuestParams(m) + after, IP)
            == if NetworkParams(m) == [] then None else Some(NetworkValue(m.network.value))
  {
    Regroup(before, SystemParams(), NetworkParams(m), DiskParams(m), ExtrasParams(m), after);
    NoOtherAddress(before, m, after);
    NetworkAmong(before + SystemParams(), m, DiskParams(m) + ExtrasParams(m) + after);
  }

  lemma NetworkAmong(head: seq<string>, m: Machine, tail: seq<string>)
    requires forall t :: t in head || t in tail ==> !HasPrefix(t, IP)
    ensures FirstValue(head + (NetworkParams(m) + tail), IP)
            == if NetworkParams(m) == [] then None else Some(NetworkValue(m.network.value))
  {
    if NetworkParams(m) == [] {
      assert head + (NetworkParams(m) + tail) == head + tail;
      FirstValueAbsent(head + tail, IP);
    } else {
      FirstValueFound(head, IP, NetworkValue(m.network.value), tail);
    }
  }

  lemma NoOtherAddress(before: seq<string>, m: Machine, after: seq<string>)
    requires forall t :: t in before + after ==> Foreign(t)
    ensures forall t :: t in before + SystemParams() || t in DiskParams(m) + ExtrasParams(m) + after
                        ==> !HasPrefix(t, IP)
  {
    SystemParamsAreForeign();
    forall t | t in before + SystemParams() || t in DiskParams(m) + ExtrasParams(m) + after
      ensures !HasPrefix(t, IP)
    {
      if t !in before + after && t !in SystemParams() {
        assert t[0] == 's' && IP[0] == 'i';
      }
    }
  }

  lemma NoEarlierDisks(before: seq<string>, m: Machine, after: seq<string>)
    requires forall t :: t in before + after ==> Foreign(t)
    ensures forall t :: t in before + SystemParams() + NetworkParams(m) ==> !HasPrefix(t, DISKS)
  {
    SystemParamsAreForeign();
    forall t | t in before + SystemParams() + NetworkParams(m)
      ensures !HasPrefix(t, DISKS)
    {
      if t in NetworkParams(m) {
        assert t[0] == IP[0] && DISKS[0] == 's';
      } else {
        assert t in before + after || t in SystemParams();
      }
    }
  }

  lemma FindsDisks(before: seq<string>, m: Machine, after: seq<string>)
    requires forall t :: t in before + after ==> Foreign(t)
    ensures FirstValue(before + GuestParams(m) + after, DISKS) == Some(PrintInt(m.diskCount))
  {
    Regroup(before, SystemParams(), NetworkParams(m), DiskParams(m), ExtrasParams(m), after);
    NoEarlierDisks(before, m, after);
    FirstValueFound(before + SystemParams() + NetworkParams(m), DISKS, PrintInt(m.diskCount), ExtrasParams(m) + after);
  }

  lemma NoOtherExtras(before: seq<string>, m: Machine, after: seq<string>)
    requires forall t :: t in before + after ==> Foreign(t)
    ensures forall t :: t in before + SystemParams() + NetworkParams(m) + DiskParams(m) + after ==> PassedByExtras(t)
  {
    SystemParamsAreForeign();
    forall t | t in before + SystemParams() + NetworkParams(m) + DiskParams(m) + after
      ensures PassedByExtras(t)
    {
      if t in DiskParams(m) {
        assert t[5] == 'd' && EXTRAS[5] == 'e' && FORCE[5] == 'e';
      } else if t in NetworkParams(m) {
        assert t[0] == IP[0] && EXTRAS[0] == 's' && FORCE[0] == 's';
      } else {
        assert t in before + after || t in SystemParams();
      }
    }
  }

  lemma FindsExtras(before: seq<string>, m: Machine, after: seq<string>)
    requires Encodable(m) && forall t :: t in before + after ==> Foreign(t)
    ensures ReadExtras(before + GuestParams(m) + after)
            == Ok(Extras(if m.extrasIndex.Some? then DiskDevice(m.extrasIndex.value) else "", false))
  {
    Regroup(before, SystemParams(), NetworkParams(m), DiskParams(m), ExtrasParams(m), after);
    NoOtherExtras(before, m, after);
    ExtrasAmong(before + SystemParams() + NetworkParams(m) + DiskParams(m), m, after);
  }

  lemma ExtrasAmong(head: seq<string>, m: Machine, after: seq<string>)
    requires Encodable(m) && forall t :: t in head + after ==> PassedByExtras(t)
    ensures ReadExtras(head + ExtrasParams(m) + after)
            == Ok(Extras(if m.extrasIndex.Some? then DiskDevice(m.extrasIndex.value) else "", false))
  {
    if m.extrasIndex.Some? {
      ExtrasFound(head, m.extrasIndex.value, after);
    } else {
      assert head + ExtrasParams(m) + after == head + after;
      ExtrasAbsent(head + after);
    }
  }

  /** The booted VM's identity, from the line the host wrote. */
  lemma BootedIdentity(before: seq<string>, m: Machine, after: seq<string>)
    requires Encodable(m) && forall t :: t in before + after ==> Foreign(t)
    ensures var id := Described(Tokens(CommandLine(before, m, after)));
            && id.blockDevices == m.diskCount
            && id.extrasDisk == (if m.extrasIndex.Some? then DiskDevice(m.extrasIndex.value) else "")
            && !id.extrasForce
            && (id.network.Some? <==> m.network.Some? && m.network.value.ip != "")
            && (id.network.Some? ==>
                  var n := m.network.value;
                  id.network.value == NetworkIdentity(n.ip, n.gateway, n.netmask, "eth0", NonEmpty(FirstTwo(n.dns)), "",
                                                      HasParamIn(before + GuestParams(m) + after, METADATA)))
  {
    LineIsReadBack(before, m, after);
    FindsNetwork(before, m, after);
    FindsDisks(before, m, after);
    FindsExtras(before, m, after);
    AtoiPrintInt(m.diskCount);
    if NetworkParams(m) != [] {
      ReadsBackNetwork(m.network.value);
    }
  }

  lemma MetadataOnlyFromOthers(before: seq<string>, m: Machine, after: seq<string>)
    ensures HasParamIn(before + GuestParams(m) + after, METADATA) <==> HasParamIn(before + after, METADATA)
  {
    SystemParamsAreForeign();
    var tokens := before + GuestParams(m) + after;
    forall t | t in GuestParams(m)
      ensures !HasPrefix(t, METADATA)
    {
      if t in NetworkParams(m) {
        assert t[0] == IP[0] && METADATA[0] == 's';
      } else if t !in SystemParams() {
        assert (t[5] == 'd' || t[5] == 'e') && METADATA[5] == 'm';
      }
    }
    forall t | t in before + after
      ensures t in tokens
    {
    }
  }

  /** What each entry of the name server list is worth on the line. */
  lemma {:induction false} NonEmptyIsAll(dns: seq<string>)
    ensures NonEmpty(dns) == dns <==> "" !in dns
    ensures |NonEmpty(dns)| <= |dns| && "" !in NonEmpty(dns)
  {
    if dns != [] {
      NonEmptyIsAll(dns[1..]);
      assert dns == [dns[0]] + dns[1..];
      if dns[0] == "" {
        assert |NonEmpty(dns)| < |dns|;
      } else {
        assert NonEmpty(dns)[1..] == NonEmpty(dns[1..]);
      }
    }
  }

  lemma DnsAgreesIff(dns: seq<string>)
    ensures NonEmpty(FirstTwo(dns)) == dns <==> |dns| <= 2 && "" !in dns
  {
    NonEmptyIsAll(dns);
    NonEmptyIsAll(FirstTwo(dns));
  }

  /** Both channels describe the same machine exactly when the disk count fits 32
      bits, the interface is eth0, the address is there, and there are at most two
      name servers, none of them empty. */
  lemma ChannelsAgreeIff(before: seq<string>, m: Machine, after: seq<string>)
    requires Encodable(m) && forall t :: t in before + after ==> Foreign(t)
    ensures var booted := Described(Tokens(CommandLine(before, m, after)));
            var told := Configure(ConfigureGuest(m));
            && booted.extrasDisk == told.extrasDisk && booted.extrasForce == told.extrasForce
            && (booted.blockDevices == told.blockDevices <==> 0 <= m.diskCount < 0x1_0000_0000)
            && (booted.network.Some? == told.network.Some? <==> !(m.network.Some? && m.network.value.ip == ""))
            && (booted.network.Some? ==>
                  var b, t := booted.network.value, told.network.value;
                  && b.ip == t.ip && b.gateway == t.gateway && b.netmask == t.netmask
                  && (b.device == t.device <==> m.network.value.interfaceName == "eth0")
                  && (b.dns == t.dns <==> |m.network.value.dns| <= 2 && "" !in m.network.value.dns)
                  && (b.metadataRoute == t.metadataRoute <==> !HasParamIn(before + after, METADATA)))
  {
    BootedIdentity(before, m, after);
    MetadataOnlyFromOthers(before, m, after);
    if m.network.Some? {
      DnsAgreesIff(m.network.value.dns);
    }
  }

  // ----- "the first two non-empty name servers"

  lemma {:induction false} NonEmptyAppend(a: seq<string>, b: seq<string>)
    ensures NonEmpty(a + b) == NonEmpty(a) + NonEmpty(b)
  {
    if a == [] {
      assert a + b == b;
    } else {
      assert (a + b)[1..] == a[1..] + b;
      NonEmptyAppend(a[1..], b);
    }
  }

  /** The line keeps the non-empty ones of the first two, which are the first two
      non-empty ones unless an empty entry comes before a third that is not. */
  lemma DnsIsFirstTwoNonEmptyIff(dns: seq<string>)
    ensures NonEmpty(FirstTwo(dns)) == FirstTwo(NonEmpty(dns))
            <==> "" !in FirstTwo(dns) || NonEmpty(dns[|FirstTwo(dns)|..]) == []
  {
    var a, b := FirstTwo(dns), dns[|FirstTwo(dns)|..];
    assert dns == a + b;
    NonEmptyAppend(a, b);
    NonEmptyIsAll(a);
    assert |dns| <= 2 ==> b == [];
    assert NonEmpty(b) == [] ==> NonEmpty(a) + NonEmpty(b) == NonEmpty(a);
    if "" in a && NonEmpty(b) != [] {
      assert |NonEmpty(a)| < 2;
      assert |FirstTwo(NonEmpty(dns))| > |NonEmpty(a)|;
    }
  }

  lemma ThirdNameServerIsLost()
    ensures NonEmpty(FirstTwo(["", "10.0.0.1", "10.0.0.2"])) == ["10.0.0.1"]
    ensures FirstTwo(NonEmpty(["", "10.0.0.1", "10.0.0.2"])) == ["10.0.0.1", "10.0.0.2"]
  {
    var dns := ["", "10.0.0.1", "10.0.0.2"];
    assert dns[..2] == ["", "10.0.0.1"];
    NonEmptyOfTwo(dns[..2]);
    NonEmptyOfTwo(dns[1..]);
    assert NonEmpty(dns) == NonEmpty(dns[1..]);
  }
}
