/**
 * Deriving a rate-limit identity from a request: KeyByIP with its header precedence,
 * canonicalizeIP's /64 reduction of IPv6 addresses, and composedKeyFunc.
 */
module KeyDeriver {
  import opened Base

  /** Request headers by name; Go's case-insensitive canonicalisation of names is not modelled. */
  type Header = map<string, string>

  datatype Request = Request(header: Header, remoteAddr: string, path: string)

  /** `r.Header.Get(name)`: the value, or "" when the header is absent. */
  function HeaderGet(h: Header, name: string): (v: string)
    ensures name in h ==> v == h[name]
    ensures name !in h ==> v == ""
  {
    if name in h then h[name] else ""
  }

  type Byte = b: int | 0 <= b < 256

  /** The 16-byte form net.ParseIP returns for every address it accepts. */
  type Addr16 = s: seq<Byte> | |s| == 16 witness seq(16, _ => 0)

  /**
   * The parts of Go's net package that the key derivation calls and that this model leaves
   * uninterpreted: the host part net.SplitHostPort returns (None when it fails), net.ParseIP
   * (None for a nil result) and IP.String (the text form of section 2.2 of RFC 4291).
   */
  datatype NetLib = NetLib(
    splitHostPort: string -> Option<string>,
    parseIP: string -> Option<Addr16>,
    ipString: Addr16 -> string)

  // ---------------------------------------------------------------------------------------
  // KeyByIP's choice of address

  /** sep occurs in s at position j. */
  predicate OccursAt(s: string, sep: string, j: int) {
    0 <= j && j + |sep| <= |s| && s[j..j + |sep|] == sep
  }

  /** `strings.Index(s, sep)`: the first position of sep in s, or -1. */
  function IndexOf(s: string, sep: string): (i: int)
    ensures i == -1 || OccursAt(s, sep, i)
    ensures forall j :: OccursAt(s, sep, j) ==> i != -1 && i <= j
    decreases |s|
  {
    if |s| < |sep| then -1
    else if s[..|sep|] == sep then 0
    else
      var k := IndexOf(s[1..], sep);
      OccursShift(s, sep);
      if k == -1 then -1 else k + 1
  }

  /** Occurrences in s after its first character are the occurrences in s[1..], shifted by one. */
  lemma OccursShift(s: string, sep: string)
    requires |s| >= 1
    ensures forall j :: j >= 1 ==> (OccursAt(s, sep, j) <==> OccursAt(s[1..], sep, j - 1))
  {
    forall j | j >= 1
      ensures OccursAt(s, sep, j) <==> OccursAt(s[1..], sep, j - 1)
    {
      if j + |sep| <= |s| {
        assert s[1..][j - 1..j - 1 + |sep|] == s[j..j + |sep|];
      }
    }
  }

  const HopSeparator: string := ", "

  /** The X-Forwarded-For entry KeyByIP uses: everything before the first ", ". */
  function FirstHop(xff: string): (hop: string)
    ensures hop <= xff
    ensures forall j :: !OccursAt(hop, HopSeparator, j)
    ensures hop != xff ==> OccursAt(xff, HopSeparator, |hop|)
  {
    var i := IndexOf(xff, HopSeparator);
    if i == -1 then xff
    else
      assert forall j :: OccursAt(xff[..i], HopSeparator, j) ==> OccursAt(xff, HopSeparator, j) by {
        forall j | OccursAt(xff[..i], HopSeparator, j) ensures OccursAt(xff, HopSeparator, j) {
          assert xff[..i][j..j + 2] == xff[j..j + 2];
        }
      }
      xff[..i]
  }

  /** The address KeyByIP canonicalises: the first non-empty header, else the remote host. */
  function ClientAddress(r: Request, net: NetLib): (a: string)
    ensures HeaderGet(r.header, "True-Client-IP") != "" ==> a == HeaderGet(r.header, "True-Client-IP")
    ensures || a == HeaderGet(r.header, "True-Client-IP") || a == HeaderGet(r.header, "X-Real-IP")
            || a <= HeaderGet(r.header, "X-Forwarded-For") || a == r.remoteAddr
            || net.splitHostPort(r.remoteAddr) == Some(a)
  {
    var tcip := HeaderGet(r.header, "True-Client-IP");
    var xrip := HeaderGet(r.header, "X-Real-IP");
    var xff := HeaderGet(r.header, "X-Forwarded-For");
    if tcip != "" then tcip
    else if xrip != "" then xrip
    else if xff != "" then FirstHop(xff)
    else net.splitHostPort(r.remoteAddr).GetOr(r.remoteAddr)
  }

  /**
   * The precedence of the sources KeyByIP reads: True-Client-IP, then X-Real-IP, then the
   * first X-Forwarded-For entry, then the host of RemoteAddr (all of RemoteAddr if it does
   * not split). A header wins as soon as it is non-empty, even if its first entry is empty.
   */
  lemma ClientAddressPrecedence(r: Request, net: NetLib)
    ensures var tcip := HeaderGet(r.header, "True-Client-IP");
      var xrip := HeaderGet(r.header, "X-Real-IP");
      var xff := HeaderGet(r.header, "X-Forwarded-For");
      var a := ClientAddress(r, net);
      && (tcip != "" ==> a == tcip)
      && (tcip == "" && xrip != "" ==> a == xrip)
      && (tcip == "" && xrip == "" && xff != "" ==>
            a <= xff && (forall j :: !OccursAt(a, HopSeparator, j)) && (a != xff ==> OccursAt(xff, HopSeparator, |a|)))
      && (tcip == "" && xrip == "" && xff != "" && IndexOf(xff, HopSeparator) == -1 ==> a == xff)
      && (tcip == "" && xrip == "" && xff == "" ==>
            a == (if net.splitHostPort(r.remoteAddr).Some? then net.splitHostPort(r.remoteAddr).value
                  else r.remoteAddr))
  {
  }

  /** An X-Forwarded-For header that starts with ", " yields the empty address, not RemoteAddr. */
  lemma EmptyFirstHop(r: Request, net: NetLib, rest: string)
    requires HeaderGet(r.header, "True-Client-IP") == "" && HeaderGet(r.header, "X-Real-IP") == ""
    requires HeaderGet(r.header, "X-Forwarded-For") == HopSeparator + rest
    ensures ClientAddress(r, net) == ""
  {
    assert (HopSeparator + rest)[..2] == HopSeparator;
  }

  // ---------------------------------------------------------------------------------------
  // canonicalizeIP

  /** How the scan at the top of canonicalizeIP classifies a string: by its first '.' or ':'. */
  datatype AddrText = DotFirst | ColonFirst | NoSeparator

  function Classify(s: string): AddrText {
    if s == [] then NoSeparator
    else if s[0] == '.' then DotFirst
    else if s[0] == ':' then ColonFirst
    else Classify(s[1..])
  }

  ghost predicate ColonBeforeDot(s: string) {
    exists i :: 0 <= i < |s| && s[i] == ':' && forall j :: 0 <= j < i ==> s[j] != '.'
  }

  ghost predicate DotBeforeColon(s: string) {
    exists i :: 0 <= i < |s| && s[i] == '.' && forall j :: 0 <= j < i ==> s[j] != ':'
  }

  /** Classify reads the first separator: ':' before any '.', '.' before any ':', or neither. */
  lemma ClassifyMeaning(s: string)
    ensures Classify(s) == ColonFirst <==> ColonBeforeDot(s)
    ensures Classify(s) == DotFirst <==> DotBeforeColon(s)
    ensures Classify(s) == NoSeparator <==> forall i :: 0 <= i < |s| ==> s[i] != '.' && s[i] != ':'
  {
    ClassifyColon(s);
    ClassifyDot(s);
    ClassifyNone(s);
  }

  lemma {:induction false} ClassifyColon(s: string)
    ensures Classify(s) == ColonFirst <==> ColonBeforeDot(s)
  {
    if s == [] {
    } else if s[0] == '.' {
      forall i | 0 <= i < |s| && s[i] == ':'
        ensures exists j :: 0 <= j < i && s[j] == '.'
      {
        assert s[0] == '.';
      }
    } else if s[0] == ':' {
      assert s[0] == ':';
    } else {
      var t := s[1..];
      ClassifyColon(t);
      if ColonBeforeDot(s) {
        var i :| 0 <= i < |s| && s[i] == ':' && forall j :: 0 <= j < i ==> s[j] != '.';
        assert t[i - 1] == ':' && forall j :: 0 <= j < i - 1 ==> t[j] != '.';
      }
      if ColonBeforeDot(t) {
        var i :| 0 <= i < |t| && t[i] == ':' && forall j :: 0 <= j < i ==> t[j] != '.';
        assert s[i + 1] == ':' && forall j :: 0 <= j < i + 1 ==> s[j] != '.';
      }
    }
  }

  lemma {:induction false} ClassifyDot(s: string)
    ensures Classify(s) == DotFirst <==> DotBeforeColon(s)
  {
    if s == [] {
    } else if s[0] == '.' {
      assert s[0] == '.';
    } else if s[0] == ':' {
      forall i | 0 <= i < |s| && s[i] == '.'
        ensures exists j :: 0 <= j < i && s[j] == ':'
      {
        assert s[0] == ':';
      }
    } else {
      var t := s[1..];
      ClassifyDot(t);
      if DotBeforeColon(s) {
        var i :| 0 <= i < |s| && s[i] == '.' && forall j :: 0 <= j < i ==> s[j] != ':';
        assert t[i - 1] == '.' && forall j :: 0 <= j < i - 1 ==> t[j] != ':';
      }
      if DotBeforeColon(t) {
        var i :| 0 <= i < |t| && t[i] == '.' && forall j :: 0 <= j < i ==> t[j] != ':';
        assert s[i + 1] == '.' && forall j :: 0 <= j < i + 1 ==> s[j] != ':';
      }
    }
  }

  lemma {:induction false} ClassifyNone(s: string)
    ensures Classify(s) == NoSeparator <==> forall i :: 0 <= i < |s| ==> s[i] != '.' && s[i] != ':'
  {
    if s != [] && s[0] != '.' && s[0] != ':' {
      ClassifyNone(s[1..]);
      assert forall i :: 0 <= i < |s| - 1 ==> s[1..][i] == s[i + 1];
    }
  }

  /** `ip.Mask(net.CIDRMask(64, 128))` on a 16-byte address: keep the upper 64 bits. */
  function Mask64(a: Addr16): (m: Addr16)
    ensures m[..8] == a[..8]
    ensures forall i :: 8 <= i < 16 ==> m[i] == 0
  {
    a[..8] + seq(8, _ => 0 as Byte)
  }

  /** Two addresses mask alike exactly when their upper 64 bits agree; masking is idempotent. */
  lemma Mask64SamePrefix(a: Addr16, b: Addr16)
    ensures Mask64(a) == Mask64(b) <==> a[..8] == b[..8]
    ensures Mask64(Mask64(a)) == Mask64(a)
  {
    if a[..8] == b[..8] {
      assert Mask64(a) == Mask64(b);
    }
    assert Mask64(Mask64(a)) == Mask64(a);
  }

  /** What canonicalizeIP returns for ip. */
  function CanonicalIP(ip: string, net: NetLib): string {
    if Classify(ip) != ColonFirst then ip
    else match net.parseIP(ip)
      case None => ip
      case Some(a) => net.ipString(Mask64(a))
  }

  /** canonicalizeIP: the scan for the first '.' or ':' followed by the /64 reduction. */
  method CanonicalizeIP(ip: string, net: NetLib) returns (r: string)
    ensures r == CanonicalIP(ip, net)
  {
    var isIPv6 := false;
    var i := 0;
    while !isIPv6 && i < |ip|
      invariant 0 <= i <= |ip|
      invariant !isIPv6 ==> Classify(ip) == Classify(ip[i..])
      invariant isIPv6 ==> Classify(ip) == ColonFirst
    {
      if ip[i] == '.' {
        return ip;
      } else if ip[i] == ':' {
        isIPv6 := true;
      }
      assert ip[i..][1..] == ip[i + 1..];
      i := i + 1;
    }
    if !isIPv6 {
      return ip;
    }
    var ipv6 := net.parseIP(ip);
    if ipv6.None? {
      return ip;
    }
    return net.ipString(Mask64(ipv6.value));
  }

  /**
   * The three cases in which canonicalizeIP returns its input (a '.' before any ':', no ':'
   * at all, an address ParseIP rejects) and the /64 reduction otherwise.
   */
  lemma CanonicalIPCases(ip: string, net: NetLib)
    ensures DotBeforeColon(ip) ==> CanonicalIP(ip, net) == ip
    ensures (forall i :: 0 <= i < |ip| ==> ip[i] != ':') ==> CanonicalIP(ip, net) == ip
    ensures net.parseIP(ip).None? ==> CanonicalIP(ip, net) == ip
    ensures ColonBeforeDot(ip) && net.parseIP(ip).Some? ==>
      CanonicalIP(ip, net) == net.ipString(Mask64(net.parseIP(ip).value))
  {
    ClassifyMeaning(ip);
    if forall i :: 0 <= i < |ip| ==> ip[i] != ':' {
      assert !ColonBeforeDot(ip);
    }
  }

  /** Addresses in one /64 subnet share a key. */
  lemma SameSubnetSameKey(a: string, b: string, net: NetLib)
    requires ColonBeforeDot(a) && ColonBeforeDot(b)
    requires net.parseIP(a).Some? && net.parseIP(b).Some?
    requires net.parseIP(a).value[..8] == net.parseIP(b).value[..8]
    ensures CanonicalIP(a, net) == CanonicalIP(b, net)
  {
    ClassifyMeaning(a);
    ClassifyMeaning(b);
    Mask64SamePrefix(net.parseIP(a).value, net.parseIP(b).value);
  }

  /**
   * What the model needs of Go's net package: the text of an address whose lower 64 bits are
   * zero has a ':' before any '.' (it is never the dotted IPv4 form) and parses back to itself.
   */
  ghost predicate Lawful(net: NetLib) {
    forall a: Addr16 ::
      net.parseIP(net.ipString(Mask64(a))) == Some(Mask64(a)) &&
      Classify(net.ipString(Mask64(a))) == ColonFirst
  }

  /** Addresses in different /64 subnets get different keys. */
  lemma DifferentSubnetDifferentKey(a: string, b: string, net: NetLib)
    requires Lawful(net)
    requires ColonBeforeDot(a) && ColonBeforeDot(b)
    requires net.parseIP(a).Some? && net.parseIP(b).Some?
    requires net.parseIP(a).value[..8] != net.parseIP(b).value[..8]
    ensures CanonicalIP(a, net) != CanonicalIP(b, net)
  {
    ClassifyMeaning(a);
    ClassifyMeaning(b);
    var x, y := net.parseIP(a).value, net.parseIP(b).value;
    Mask64SamePrefix(x, y);
    assert net.parseIP(net.ipString(Mask64(x))) == Some(Mask64(x));
    assert net.parseIP(net.ipString(Mask64(y))) == Some(Mask64(y));
  }

  /** Canonicalising a key again leaves it unchanged. */
  lemma CanonicalIPIdempotent(ip: string, net: NetLib)
    requires Lawful(net)
    ensures CanonicalIP(CanonicalIP(ip, net), net) == CanonicalIP(ip, net)
  {
    if Classify(ip) == ColonFirst && net.parseIP(ip).Some? {
      var a := net.parseIP(ip).value;
      var s := net.ipString(Mask64(a));
      assert net.parseIP(s) == Some(Mask64(a)) && Classify(s) == ColonFirst;
      Mask64SamePrefix(a, a);
    }
  }

  /** The IPv4-mapped form ::ffff:a.b.c.d of section 2.5.5.2 of RFC 4291. */
  function V4Mapped(v4: seq<Byte>): (a: Addr16)
    requires |v4| == 4
    ensures a[12..] == v4
  {
    seq(10, _ => 0 as Byte) + [255 as Byte, 255 as Byte] + v4
  }

  /** Every IPv4-mapped address written in IPv6 text reduces to the all-zero prefix: one shared key. */
  lemma MappedIPv4SharesKey(ip: string, net: NetLib, v4: seq<Byte>)
    requires |v4| == 4
    requires ColonBeforeDot(ip) && net.parseIP(ip) == Some(V4Mapped(v4))
    ensures CanonicalIP(ip, net) == net.ipString(seq(16, _ => 0 as Byte))
  {
    ClassifyMeaning(ip);
    assert Mask64(V4Mapped(v4)) == seq(16, _ => 0 as Byte);
  }

  /** The key KeyByIP derives. */
  function IPKey(r: Request, net: NetLib): string {
    CanonicalIP(ClientAddress(r, net), net)
  }

  /** KeyByIP: choose the address, canonicalise it; the error is always nil. */
  method KeyByIP(r: Request, net: NetLib) returns (key: string)
    ensures key == IPKey(r, net)
  {
    var ip: string;
    var tcip := HeaderGet(r.header, "True-Client-IP");
    var xrip := HeaderGet(r.header, "X-Real-IP");
    var xff := HeaderGet(r.header, "X-Forwarded-For");
    if tcip != "" {
      ip := tcip;
    } else if xrip != "" {
      ip := xrip;
    } else if xff != "" {
      var i := IndexOf(xff, HopSeparator);
      if i == -1 {
        i := |xff|;
      }
      ip := xff[..i];
      assert ip == FirstHop(xff);
    } else {
      var host := net.splitHostPort(r.remoteAddr);
      ip := if host.Some? then host.value else r.remoteAddr;
    }
    key := CanonicalizeIP(ip, net);
  }

  // ---------------------------------------------------------------------------------------
  // Key functions and composedKeyFunc

  /** A KeyFunc: KeyByIP, KeyByEndpoint, or any other function of the request. */
  datatype KeyFunc = ByIP | ByEndpoint | Custom(f: Request -> Result<string>)

  function KeyOf(kf: KeyFunc, r: Request, net: NetLib): (res: Result<string>)
    ensures kf.ByIP? ==> res == Ok(IPKey(r, net))
    ensures kf.ByEndpoint? ==> res == Ok(r.path)
  {
    match kf
    case ByIP => Ok(IPKey(r, net))
    case ByEndpoint => Ok(r.path)
    case Custom(f) => f(r)
  }

  method CallKeyFunc(kf: KeyFunc, r: Request, net: NetLib) returns (res: Result<string>)
    ensures res == KeyOf(kf, r, net)
  {
    match kf
    case ByIP =>
      var key := KeyByIP(r, net);
      res := Ok(key);
    case ByEndpoint =>
      res := Ok(r.path);
    case Custom(f) =>
      res := f(r);
  }

  /** What the function composedKeyFunc(fs...) returns for r. */
  function Composed(fs: seq<KeyFunc>, r: Request, net: NetLib): Result<string>
    decreases |fs|
  {
    if fs == [] then Ok("")
    else match Composed(fs[..|fs| - 1], r, net)
      case Err(e) => Err(e)
      case Ok(prefix) =>
        match KeyOf(fs[|fs| - 1], r, net)
        case Err(e) => Err(e)
        case Ok(k) => Ok(prefix + k)
  }

  /** composedKeyFunc's loop: append each sub-key in order, stop at the first error. */
  method ComposedKeyFunc(fs: seq<KeyFunc>, r: Request, net: NetLib) returns (res: Result<string>)
    ensures res == Composed(fs, r, net)
  {
    var key := "";
    for i := 0 to |fs|
      invariant Composed(fs[..i], r, net) == Ok(key)
    {
      var k := CallKeyFunc(fs[i], r, net);
      assert fs[..i + 1][..i] == fs[..i];
      if k.Err? {
        assert Composed(fs[..i + 1], r, net) == Err(k.error);
        ComposedStopsAtError(fs, r, net, i + 1);
        return Err(k.error);
      }
      key := key + k.value;
    }
    assert fs[..|fs|] == fs;
    return Ok(key);
  }

  /** Once a prefix of the list fails, the whole list fails with the same error. */
  lemma {:induction false} ComposedStopsAtError(fs: seq<KeyFunc>, r: Request, net: NetLib, n: nat)
    requires n <= |fs| && Composed(fs[..n], r, net).Err?
    ensures Composed(fs, r, net) == Composed(fs[..n], r, net)
    decreases |fs| - n
  {
    if n < |fs| {
      assert fs[..n + 1][..n] == fs[..n];
      ComposedStopsAtError(fs, r, net, n + 1);
    } else {
      assert fs[..n] == fs;
    }
  }

  /** The sub-keys of fs for r, for a list whose every function succeeds. */
  function SubKeys(fs: seq<KeyFunc>, r: Request, net: NetLib): seq<string>
    requires forall i :: 0 <= i < |fs| ==> KeyOf(fs[i], r, net).Ok?
  {
    seq(|fs|, i requires 0 <= i < |fs| => KeyOf(fs[i], r, net).value)
  }

  /** The concatenation of a list of strings, first to last. */
  function Concat(ss: seq<string>): string {
    if ss == [] then "" else ss[0] + Concat(ss[1..])
  }

  lemma {:induction false} ConcatAppend(ss: seq<string>, s: string)
    ensures Concat(ss + [s]) == Concat(ss) + s
  {
    if ss != [] {
      assert (ss + [s])[1..] == ss[1..] + [s];
      ConcatAppend(ss[1..], s);
    }
  }

  /** When every sub-function succeeds, the key is their keys concatenated in list order. */
  lemma {:induction false} ComposedConcatenates(fs: seq<KeyFunc>, r: Request, net: NetLib)
    requires forall i :: 0 <= i < |fs| ==> KeyOf(fs[i], r, net).Ok?
    ensures Composed(fs, r, net) == Ok(Concat(SubKeys(fs, r, net)))
    decreases |fs|
  {
    if fs != [] {
      var init := fs[..|fs| - 1];
      ComposedConcatenates(init, r, net);
      assert SubKeys(fs, r, net) == SubKeys(init, r, net) + [KeyOf(fs[|fs| - 1], r, net).value];
      ConcatAppend(SubKeys(init, r, net), KeyOf(fs[|fs| - 1], r, net).value);
    }
  }

  /**
   * The first failing sub-function decides: the whole key fails with its error, whatever the
   * functions after it would return.
   */
  lemma ComposedFirstError(fs: seq<KeyFunc>, r: Request, net: NetLib, i: nat)
    requires i < |fs|
    requires forall j :: 0 <= j < i ==> KeyOf(fs[j], r, net).Ok?
    requires KeyOf(fs[i], r, net).Err?
    ensures Composed(fs, r, net) == Err(KeyOf(fs[i], r, net).error)
  {
    var init := fs[..i];
    assert fs[..i + 1][..i] == init;
    ComposedConcatenates(init, r, net);
    ComposedStopsAtError(fs, r, net, i + 1);
  }

  /** Composition fails exactly when some sub-function fails. */
  lemma ComposedFailsIff(fs: seq<KeyFunc>, r: Request, net: NetLib)
    ensures Composed(fs, r, net).Err? <==> exists i :: 0 <= i < |fs| && KeyOf(fs[i], r, net).Err?
  {
    if exists i :: 0 <= i < |fs| && KeyOf(fs[i], r, net).Err? {
      var i := FirstFailure(fs, r, net);
      ComposedFirstError(fs, r, net, i);
    } else {
      ComposedConcatenates(fs, r, net);
    }
  }

  /** The position of the first failing sub-function. */
  lemma FirstFailure(fs: seq<KeyFunc>, r: Request, net: NetLib) returns (i: nat)
    requires exists i :: 0 <= i < |fs| && KeyOf(fs[i], r, net).Err?
    ensures i < |fs| && KeyOf(fs[i], r, net).Err?
    ensures forall j :: 0 <= j < i ==> KeyOf(fs[j], r, net).Ok?
  {
    var k :| 0 <= k < |fs| && KeyOf(fs[k], r, net).Err?;
    i := 0;
    while KeyOf(fs[i], r, net).Ok?
      invariant i <= k
      invariant forall j :: 0 <= j < i ==> KeyOf(fs[j], r, net).Ok?
      decreases k - i
    {
      i := i + 1;
    }
  }
}
