/** The client config file as text: comments, lines, keys and values, and the trip there and back
    (`src/config/codec.rs`, `src/clientcfg.rs`). */
module ConfigText {
  import opened Base
  import opened Secret
  import opened Config
  import opened ConfigCodec

  // ---------------------------------------------------------------- outside the strings

  datatype Scan = Bare | InString | Escaped

  function Step(st: Scan, c: char): Scan {
    match st
    case Bare => if c == '"' then InString else Bare
    case InString => if c == '\\' then Escaped else if c == '"' then Bare else InString
    case Escaped => InString
  }

  function After(st: Scan, text: string): Scan
    decreases |text|
  {
    if text == [] then st else After(Step(st, text[0]), text[1..])
  }

  /** Where a mark is first met outside the strings. */
  function Find(st: Scan, mark: char, text: string): (r: Option<nat>)
    ensures r.Some? ==> r.value < |text| && text[r.value] == mark
    decreases |text|
  {
    if text == [] then None
    else if st.Bare? && text[0] == mark then Some(0)
    else match Find(Step(st, text[0]), mark, text[1..]) case Some(i) => Some(i + 1) case None => None
  }

  predicate MarkedAt(mark: char, text: string, i: nat)
    requires i < |text|
  {
    text[i] == mark && After(Bare, text[..i]).Bare?
  }

  lemma {:induction false} AfterConcat(st: Scan, a: string, b: string)
    ensures After(st, a + b) == After(After(st, a), b)
    decreases |a|
  {
    if a == [] {
      assert a + b == b;
    } else {
      AfterConcat(Step(st, a[0]), a[1..], b);
      assert (a + b)[1..] == a[1..] + b;
    }
  }

  lemma {:induction false} FindConcat(st: Scan, mark: char, a: string, b: string)
    ensures Find(st, mark, a).Some? ==> Find(st, mark, a + b) == Find(st, mark, a)
    ensures Find(st, mark, a).None? ==>
              Find(st, mark, a + b) ==
              match Find(After(st, a), mark, b) case Some(i) => Some(|a| + i) case None => None
    decreases |a|
  {
    if a == [] {
      assert a + b == b;
    } else {
      FindConcat(Step(st, a[0]), mark, a[1..], b);
      assert (a + b)[1..] == a[1..] + b;
    }
  }

  lemma {:induction false} FindAt(mark: char, text: string, i: nat)
    requires i < |text| && MarkedAt(mark, text, i)
    ensures Find(Bare, mark, text).Some? && Find(Bare, mark, text).value <= i
  {
    FindConcat(Bare, mark, text[..i], text[i..]);
    assert text[..i] + text[i..] == text;
  }

  /** The place found is the first of the mark's places outside the strings. */
  lemma {:induction false} FindIff(mark: char, text: string, i: nat)
    requires i < |text| && mark != '"'
    ensures Find(Bare, mark, text) == Some(i) <==>
            MarkedAt(mark, text, i) && forall j :: 0 <= j < i ==> !MarkedAt(mark, text, j)
  {
    if Find(Bare, mark, text) == Some(i) {
      FoundIsBare(Bare, mark, text);
      forall j | 0 <= j < i
        ensures !MarkedAt(mark, text, j)
      {
        if MarkedAt(mark, text, j) {
          FindAt(mark, text, j);
        }
      }
    } else if MarkedAt(mark, text, i) {
      FindAt(mark, text, i);
      FoundIsBare(Bare, mark, text);
      assert MarkedAt(mark, text, Find(Bare, mark, text).value);
    }
  }

  lemma {:induction false} FoundIsBare(st: Scan, mark: char, text: string)
    requires Find(st, mark, text).Some?
    ensures After(st, text[..Find(st, mark, text).value]).Bare?
    decreases |text|
  {
    var i := Find(st, mark, text).value;
    if i > 0 {
      FoundIsBare(Step(st, text[0]), mark, text[1..]);
      assert text[..i][1..] == text[1..][..i - 1];
    }
  }

  /** The scan both the comment and the key are found by. */
  method FindMark(mark: char, text: string) returns (r: Option<nat>)
    requires mark != '"'
    ensures r == Find(Bare, mark, text)
    ensures r.Some? ==> MarkedAt(mark, text, r.value) && forall j :: 0 <= j < r.value ==> !MarkedAt(mark, text, j)
    ensures r.None? ==> forall j :: 0 <= j < |text| ==> !MarkedAt(mark, text, j)
  {
    var inString, escaped := false, false;
    var i := 0;
    while i < |text|
      invariant 0 <= i <= |text|
      invariant After(Bare, text[..i]) == if !inString then Bare else if escaped then Escaped else InString
      invariant !inString ==> !escaped
      invariant forall j :: 0 <= j < i ==> !MarkedAt(mark, text, j)
    {
      AfterConcat(Bare, text[..i], [text[i]]);
      assert text[..i + 1] == text[..i] + [text[i]];
      assert [text[i]][1..] == [];
      if inString {
        if escaped {
          escaped := false;
        } else if text[i] == '\\' {
          escaped := true;
        } else if text[i] == '"' {
          inString := false;
        }
      } else if text[i] == '"' {
        inString := true;
      } else if text[i] == mark {
        FindIff(mark, text, i);
        return Some(i);
      }
      i := i + 1;
    }
    if Find(Bare, mark, text).Some? {
      FoundIsBare(Bare, mark, text);
      assert MarkedAt(mark, text, Find(Bare, mark, text).value);
    }
    r := None;
  }

  // ---------------------------------------------------------------- one line

  function StripComment(line: string): string {
    match Find(Bare, '#', line) case Some(i) => line[..i] case None => line
  }

  /** The characters with the White_Space property. */
  predicate IsSpace(c: char) {
    '\t' <= c <= '\r' || c == ' ' || c == '\U{85}' || c == '\U{A0}' || c == '\U{1680}' || '\U{2000}' <= c <= '\U{200A}'
    || c == '\U{2028}' || c == '\U{2029}' || c == '\U{202F}' || c == '\U{205F}' || c == '\U{3000}'
  }

  function TrimStart(s: string): string {
    if s != [] && IsSpace(s[0]) then TrimStart(s[1..]) else s
  }

  function TrimEnd(s: string): string {
    if s != [] && IsSpace(s[|s| - 1]) then TrimEnd(s[..|s| - 1]) else s
  }

  function Trim(s: string): string {
    TrimEnd(TrimStart(s))
  }

  function SplitKv(line: string): Option<(string, string)> {
    match Find(Bare, '=', line)
    case Some(i) => Some((Trim(line[..i]), Trim(line[i + 1..])))
    case None => None
  }

  // ---------------------------------------------------------------- values

  function LexScalar(raw: string): Option<Value> {
    if raw == "true" || raw == "false" then Some(Bool(raw == "true"))
    else if raw != [] && raw[0] == '"' then
      match LexString(raw[1..])
      case Some((s, rest)) => if Trim(rest) == [] then Some(Str(s)) else None
      case None => None
    else match Unsigned(raw, U64_LIMIT) case Some(n) => Some(Num(n)) case None => None
  }

  lemma {:induction false} LexShrinks(line: string)
    requires LexString(line).Some?
    ensures Lexable(LexString(line).value.0) && |LexString(line).value.1| < |line|
    decreases |line|
  {
    if line[0] == '\\' {
      LexShrinks(line[2..]);
    } else if line[0] != '"' {
      LexShrinks(line[1..]);
    }
  }

  lemma {:induction false} TrimStartShrinks(s: string)
    ensures |TrimStart(s)| <= |s|
  {
    if s != [] && IsSpace(s[0]) {
      TrimStartShrinks(s[1..]);
    }
  }

  /** The entries between the brackets of a list; a trailing comma is taken. */
  function LexEntries(rest: string): Option<seq<string>>
    decreases |rest|
  {
    if rest == [] then Some([])
    else if rest[0] != '"' then None
    else
      match LexString(rest[1..])
      case None => None
      case Some((s, after)) =>
        LexShrinks(rest[1..]);
        TrimStartShrinks(after);
        var more := TrimStart(after);
        if more == [] then Some([s])
        else if more[0] != ',' then None
        else
          TrimStartShrinks(more[1..]);
          match LexEntries(TrimStart(more[1..])) case Some(ss) => Some([s] + ss) case None => None
  }

  function LexList(raw: string): Option<seq<string>> {
    if |raw| < 2 || raw[0] != '[' || raw[|raw| - 1] != ']' then None
    else LexEntries(TrimStart(raw[1..|raw| - 1]))
  }

  /** A text cut at the first of a character. */
  function Cut(s: string, c: char): Option<(string, string)> {
    if s == [] then None
    else if s[0] == c then Some(([], s[1..]))
    else match Cut(s[1..], c) case Some((a, b)) => Some(([s[0]] + a, b)) case None => None
  }

  /** One number of a dotted address: at most three digits, no zero in front. */
  function Octet(s: string): Option<nat> {
    if !(1 <= |s| <= 3) || (|s| > 1 && s[0] == '0') then None
    else match Digits(s) case Some(n) => (if n < 256 then Some(n) else None) case None => None
  }

  function ReadOctets(s: string, n: nat): Option<nat>
    decreases n
  {
    if n == 0 then Octet(s)
    else
      match Cut(s, '.')
      case None => None
      case Some((a, b)) =>
        match (Octet(a), ReadOctets(b, n - 1))
        case (Some(x), Some(y)) => Some(x * Pow256(n) + y)
        case _ => None
  }

  function ReadCidr(s: string): Option<Cidr> {
    match Cut(s, '/')
    case None => None
    case Some((a, b)) =>
      match (ReadOctets(a, 3), Unsigned(b, 256))
      case (Some(ip), Some(len)) => if len <= 32 then Some(Cidr(ip, len)) else None
      case _ => None
  }

  function ReadStr(raw: string): Option<string> {
    match LexScalar(raw) case Some(Str(s)) => Some(s) case _ => None
  }

  function ReadValue(kind: Kind, raw: string): Option<Value> {
    match kind
    case ListKind => (match LexList(raw) case Some(ss) => Some(Strs(ss)) case None => None)
    case CidrKind =>
      (match ReadStr(raw)
       case Some(s) => (match ReadCidr(s) case Some(a) => Some(Addr(a)) case None => None)
       case None => None)
    case _ =>
      (match LexScalar(raw) case Some(v) => (if Takes(kind, v) then Some(v) else None) case None => None)
  }

  // ---------------------------------------------------------------- names

  function KeyName(k: Key): string {
    match k
    case KId => "id"
    case KPeerSecret => "peer_secret"
    case KActive => "active"
    case KControl => "control"
    case KName => "name"
    case KAddr => "addr"
    case KSeed => "seed"
    case KSecret => "secret"
    case KCredential => "credential"
    case KDiscovery => "discovery"
    case KTransport => "transport"
    case KProto => "proto"
    case KPort => "port"
    case KTarget => "target"
    case KEnabled => "enabled"
    case KProxy => "proxy"
    case KIdle => "idle"
    case KAutostart => "autostart"
    case KUsername => "username"
    case KPassword => "password"
    case KPasswordFile => "password_file"
    case KService => "service"
    case KMtu => "mtu"
    case KDefaultRoute => "default_route"
    case KClampMss => "clamp_mss"
    case KRequestDns => "request_dns"
    case KDev => "dev"
    case KAddress => "address"
    case KExit => "exit"
    case KExitStrict => "exit_strict"
    case KExitVia => "exit_via"
    case KExitIface => "exit_iface"
    case KSegment => "segment"
    case KAllow => "allow"
  }

  function HeaderName(h: Header): string {
    match h
    case HClient => "client"
    case HServers => "[servers]"
    case HForwards => "[forwards]"
    case HPppoe => "[pppoe]"
    case HTap => "tap"
    case HTun => "tun"
    case HPeer => "peer"
  }

  function HeaderNamed(text: string): Option<Header> {
    if text == "client" then Some(HClient)
    else if text == "[servers]" then Some(HServers)
    else if text == "[forwards]" then Some(HForwards)
    else if text == "[pppoe]" then Some(HPppoe)
    else if text == "tap" then Some(HTap)
    else if text == "tun" then Some(HTun)
    else if text == "peer" then Some(HPeer)
    else None
  }

  function ClientKey(text: string): Option<Key> {
    if text == "id" then Some(KId)
    else if text == "peer_secret" then Some(KPeerSecret)
    else if text == "active" then Some(KActive)
    else if text == "control" then Some(KControl)
    else None
  }

  function ServerKey(text: string): Option<Key> {
    if text == "name" then Some(KName)
    else if text == "addr" then Some(KAddr)
    else if text == "seed" then Some(KSeed)
    else if text == "secret" then Some(KSecret)
    else if text == "credential" then Some(KCredential)
    else if text == "discovery" then Some(KDiscovery)
    else if text == "transport" then Some(KTransport)
    else None
  }

  function ForwardKey(text: string): Option<Key> {
    if text == "proto" then Some(KProto)
    else if text == "port" then Some(KPort)
    else if text == "target" then Some(KTarget)
    else if text == "proxy" then Some(KProxy)
    else if text == "idle" then Some(KIdle)
    else if text == "enabled" then Some(KEnabled)
    else None
  }

  function PppoeKey(text: string): Option<Key> {
    if text == "name" then Some(KName)
    else if text == "autostart" then Some(KAutostart)
    else if text == "username" then Some(KUsername)
    else if text == "password" then Some(KPassword)
    else if text == "password_file" then Some(KPasswordFile)
    else if text == "service" then Some(KService)
    else if text == "mtu" then Some(KMtu)
    else if text == "default_route" then Some(KDefaultRoute)
    else if text == "clamp_mss" then Some(KClampMss)
    else if text == "request_dns" then Some(KRequestDns)
    else None
  }

  function TapKey(text: string): Option<Key> {
    if text == "dev" then Some(KDev)
    else None
  }

  function TunKey(text: string): Option<Key> {
    if text == "dev" then Some(KDev)
    else if text == "address" then Some(KAddress)
    else if text == "exit" then Some(KExit)
    else if text == "exit_strict" then Some(KExitStrict)
    else if text == "exit_via" then Some(KExitVia)
    else None
  }

  function PeerKey(text: string): Option<Key> {
    if text == "exit" then Some(KExit)
    else if text == "exit_iface" then Some(KExitIface)
    else if text == "segment" then Some(KSegment)
    else if text == "allow" then Some(KAllow)
    else None
  }

  /** The key a table's grammar lists under a name. */
  function KeyNamed(h: Header, text: string): Option<Key> {
    match h
    case HClient => ClientKey(text)
    case HServers => ServerKey(text)
    case HForwards => ForwardKey(text)
    case HPppoe => PppoeKey(text)
    case HTap => TapKey(text)
    case HTun => TunKey(text)
    case HPeer => PeerKey(text)
  }

  /** Small letters and underscores. */
  predicate Plain(s: string) {
    s != [] && forall i :: 0 <= i < |s| ==> 'a' <= s[i] <= 'z' || s[i] == '_'
  }

  lemma {:induction false} ClientKeyBack(k: Key)
    requires KindOf(HClient, k).Some?
    ensures ClientKey(KeyName(k)) == Some(k)
  {
  }

  lemma {:induction false} ServerKeyBack(k: Key)
    requires KindOf(HServers, k).Some?
    ensures ServerKey(KeyName(k)) == Some(k)
  {
  }

  lemma {:induction false} ForwardKeyBack(k: Key)
    requires KindOf(HForwards, k).Some?
    ensures ForwardKey(KeyName(k)) == Some(k)
  {
  }

  lemma {:induction false} PppoeKeyBack(k: Key)
    requires KindOf(HPppoe, k).Some?
    ensures PppoeKey(KeyName(k)) == Some(k)
  {
    match k {
      case KUsername => assert "username"[0] != "password"[0];
      case KClampMss => assert "clamp_mss"[0] != "autostart"[0];
      case KDefaultRoute => assert "default_route"[0] != "password_file"[0];
      case _ =>
    }
  }

  lemma {:induction false} TapKeyBack(k: Key)
    requires KindOf(HTap, k).Some?
    ensures TapKey(KeyName(k)) == Some(k)
  {
  }

  lemma {:induction false} TunKeyBack(k: Key)
    requires KindOf(HTun, k).Some?
    ensures TunKey(KeyName(k)) == Some(k)
  {
    match k {
      case KExitStrict => assert |"exit_strict"| == 11;
      case KExitVia => assert |"exit_via"| == 8;
      case _ =>
    }
  }

  lemma {:induction false} PeerKeyBack(k: Key)
    requires KindOf(HPeer, k).Some?
    ensures PeerKey(KeyName(k)) == Some(k)
  {
  }

  /** A key is found under its own name in every table that takes it. */
  lemma {:induction false} KeyBack(h: Header, k: Key)
    requires KindOf(h, k).Some?
    ensures KeyNamed(h, KeyName(k)) == Some(k)
  {
    match h {
      case HClient => ClientKeyBack(k);
      case HServers => ServerKeyBack(k);
      case HForwards => ForwardKeyBack(k);
      case HPppoe => PppoeKeyBack(k);
      case HTap => TapKeyBack(k);
      case HTun => TunKeyBack(k);
      case HPeer => PeerKeyBack(k);
    }
  }

  lemma {:induction false} LongNamesPlain()
    ensures Plain("peer_secret") && Plain("credential") && Plain("discovery") && Plain("transport")
            && Plain("autostart") && Plain("username") && Plain("password") && Plain("password_file")
            && Plain("default_route") && Plain("clamp_mss") && Plain("request_dns") && Plain("exit_strict")
            && Plain("exit_via") && Plain("exit_iface")
  {
  }

  lemma {:induction false} KeyNamePlain(k: Key)
    ensures Plain(KeyName(k))
  {
    LongNamesPlain();
  }

  lemma {:induction false} HeaderBack(h: Header)
    ensures HeaderNamed(HeaderName(h)) == Some(h)
  {
  }

  // ---------------------------------------------------------------- writing

  function Quote(s: string): string {
    ['"'] + Quoted(s)
  }

  function Entries(ss: seq<string>): string {
    if ss == [] then [] else Quote(ss[0]) + (if |ss| == 1 then [] else ", " + Entries(ss[1..]))
  }

  /** A dotted address, its `n + 1` lowest bytes. */
  function Dotted(ip: nat, n: nat): string
    decreases n
  {
    if n == 0 then Decimal(ip)
    else
      var p := Pow256(n);
      DivNat(ip, p);
      Decimal(ip / p) + "." + Dotted(ip % p, n - 1)
  }

  lemma {:induction false} DivNat(n: nat, p: nat)
    requires p > 0
    ensures n / p >= 0 && n % p >= 0
  {
  }

  function CidrText(a: Cidr): string {
    Dotted(a.ip, 3) + "/" + Decimal(a.len)
  }

  function ValueText(v: Value): string {
    match v
    case Str(s) => Quote(s)
    case Num(n) => Decimal(n)
    case Bool(b) => if b then "true" else "false"
    case Addr(a) => Quote(CidrText(a))
    case Strs(ss) => "[" + Entries(ss) + "]"
  }

  function KeyLine(k: Key, v: Value): string {
    KeyName(k) + " = " + ValueText(v)
  }

  function HeaderLine(h: Header): string {
    "[" + HeaderName(h) + "]"
  }

  /** A list, element by element. */
  function Each<X, L>(f: X -> L, xs: seq<X>): (ls: seq<L>)
    ensures |ls| == |xs| && forall i :: 0 <= i < |xs| ==> ls[i] == f(xs[i])
  {
    if xs == [] then [] else Each(f, xs[..|xs| - 1]) + [f(xs[|xs| - 1])]
  }

  function LineOf(kv: (Key, Value)): string {
    KeyLine(kv.0, kv.1)
  }

  /** A table: a blank line between it and any before it, its header, its keys. */
  function Block(first: bool, t: Table): seq<string> {
    (if first then [] else [""]) + [HeaderLine(t.header)] + Each(LineOf, t.record)
  }

  /** Blocks one after another, the first told apart. */
  function Blocks<X, L>(block: (bool, X) -> seq<L>, xs: seq<X>): seq<L> {
    if xs == [] then [] else Blocks(block, xs[..|xs| - 1]) + block(|xs| == 1, xs[|xs| - 1])
  }

  function FileLines(file: seq<Table>): seq<string> {
    Blocks(Block, file)
  }

  function Unlines(ls: seq<string>): string {
    if ls == [] then [] else Unlines(ls[..|ls| - 1]) + ls[|ls| - 1] + "\n"
  }

  function WriteText(file: seq<Table>): string {
    Unlines(FileLines(file))
  }

  // ---------------------------------------------------------------- reading

  /** The lines of a text; a carriage return before the line feed is dropped. */
  function Lines(text: string): seq<string>
    decreases |text|
  {
    if text == [] then []
    else
      match Cut(text, '\n')
      case None => [text]
      case Some((line, rest)) =>
        CutShrinks(text, '\n');
        [if line != [] && line[|line| - 1] == '\r' then line[..|line| - 1] else line] + Lines(rest)
  }

  lemma {:induction false} CutShrinks(s: string, c: char)
    requires Cut(s, c).Some?
    ensures |Cut(s, c).value.1| < |s|
  {
    if s[0] != c {
      CutShrinks(s[1..], c);
    }
  }

  predicate HasSpace(s: string) {
    exists i :: 0 <= i < |s| && IsSpace(s[i])
  }

  function ReadHeader(file: seq<Table>, line: string): Option<seq<Table>> {
    if |line| < 2 || line[|line| - 1] != ']' then None
    else match HeaderNamed(line[1..|line| - 1]) case Some(h) => Some(file + [Table(h, [])]) case None => None
  }

  /** A key and its value, into the table that is open: the last one. */
  function ReadKey(file: seq<Table>, key: string, raw: string): Option<seq<Table>> {
    if key == [] || HasSpace(key) || file == [] then None
    else
      var t := file[|file| - 1];
      match KeyNamed(t.header, key)
      case None => None
      case Some(k) =>
        match KindOf(t.header, k)
        case None => None
        case Some(kind) =>
          match ReadValue(kind, raw)
          case None => None
          case Some(v) => Some(file[..|file| - 1] + [t.(record := t.record + [(k, v)])])
  }

  function ReadLine(file: seq<Table>, raw: string): Option<seq<Table>> {
    var line := Trim(StripComment(raw));
    if line == [] then Some(file)
    else if line[0] == '[' then ReadHeader(file, line)
    else match SplitKv(line) case Some((key, value)) => ReadKey(file, key, value) case None => None
  }

  /** One step after another, until one fails. */
  function Run<S, L>(step: (S, L) -> Option<S>, s: S, ls: seq<L>): Option<S> {
    if ls == [] then Some(s)
    else match Run(step, s, ls[..|ls| - 1]) case Some(m) => step(m, ls[|ls| - 1]) case None => None
  }

  function ReadLines(ls: seq<string>): Option<seq<Table>> {
    Run(ReadLine, [], ls)
  }

  function ReadText(text: string): Option<seq<Table>> {
    ReadLines(Lines(text))
  }

  function ParseText(h: Derivation, text: string): Option<Config> {
    match ReadText(text) case Some(file) => Parse(h, file) case None => None
  }

  // ---------------------------------------------------------------- values there and back

  lemma {:induction false} DigitsOfDecimal(n: nat)
    ensures Digits(Decimal(n)) == Some(n)
    ensures forall i :: 0 <= i < |Decimal(n)| ==> '0' <= Decimal(n)[i] <= '9'
    ensures Decimal(n) != [] && (n > 0 ==> Decimal(n)[0] != '0')
  {
    if n < 10 {
      assert Decimal(n)[..0] == [];
    } else {
      DigitsOfDecimal(n / 10);
      assert Decimal(n)[..|Decimal(n)| - 1] == Decimal(n / 10);
    }
  }

  lemma {:induction false} UnsignedOfDecimal(n: nat, limit: nat)
    requires n < limit
    ensures Unsigned(Decimal(n), limit) == Some(n)
  {
    DigitsOfDecimal(n);
  }

  lemma {:induction false} OctetOfDecimal(n: nat)
    requires n < 256
    ensures Octet(Decimal(n)) == Some(n)
  {
    DigitsOfDecimal(n);
    if n >= 100 {
      assert |Decimal(n / 10 / 10)| == 1 && |Decimal(n / 10)| == 2;
    } else if n >= 10 {
      assert |Decimal(n / 10)| == 1;
    }
  }

  /** A run of digits with no zero in front is the decimal of its number. */
  lemma {:induction false} DecimalOfDigits(s: string)
    requires s != [] && Digits(s).Some? && (|s| > 1 ==> s[0] != '0')
    ensures s == Decimal(Digits(s).value) && (s[0] != '0' ==> Digits(s).value > 0)
  {
    var front := s[..|s| - 1];
    if front == [] {
    } else {
      DecimalOfDigits(front);
      assert s == front + [s[|s| - 1]];
    }
  }

  lemma {:induction false} CutBack(a: string, c: char, b: string)
    requires c !in a
    ensures Cut(a + [c] + b, c) == Some((a, b))
  {
    var s := a + [c] + b;
    if a == [] {
      assert s[1..] == b;
    } else {
      CutBack(a[1..], c, b);
      assert s[1..] == a[1..] + [c] + b && [a[0]] + a[1..] == a;
    }
  }

  lemma {:induction false} DottedBack(ip: nat, n: nat)
    requires ip < Pow256(n + 1)
    ensures ReadOctets(Dotted(ip, n), n) == Some(ip)
    ensures forall i :: 0 <= i < |Dotted(ip, n)| ==> '0' <= Dotted(ip, n)[i] <= '9' || Dotted(ip, n)[i] == '.'
    decreases n
  {
    if n == 0 {
      OctetOfDecimal(ip);
      DigitsOfDecimal(ip);
    } else {
      var p := Pow256(n);
      Split(ip, p);
      OctetOfDecimal(ip / p);
      DigitsOfDecimal(ip / p);
      DottedBack(ip % p, n - 1);
      CutBack(Decimal(ip / p), '.', Dotted(ip % p, n - 1));
      assert Dotted(ip, n) == Decimal(ip / p) + ['.'] + Dotted(ip % p, n - 1);
    }
  }

  lemma {:induction false} Split(ip: nat, p: nat)
    requires 0 < p && ip < 256 * p
    ensures ip / p < 256 && ip % p < p && ip / p * p + ip % p == ip
  {
  }

  lemma {:induction false} CidrBack(a: Cidr)
    requires CidrOk(a)
    ensures ReadCidr(CidrText(a)) == Some(a) && Lexable(CidrText(a))
  {
    assert Pow256(1) == 256 && Pow256(2) == 0x1_0000 && Pow256(3) == 0x100_0000 && Pow256(4) == U32_LIMIT;
    DottedBack(a.ip, 3);
    UnsignedOfDecimal(a.len, 256);
    DecimalLexable(a.len);
    CutBack(Dotted(a.ip, 3), '/', Decimal(a.len));
    assert CidrText(a) == Dotted(a.ip, 3) + ['/'] + Decimal(a.len);
  }

  lemma {:induction false} CharIsInside(mark: char, c: char)
    requires mark != '"'
    ensures var text := if c == '"' || c == '\\' then ['\\', c] else [c];
            Find(InString, mark, text).None? && After(InString, text) == InString
  {
    if c == '"' || c == '\\' {
      assert ['\\', c][1..] == [c] && [c][1..] == [];
      assert After(Escaped, [c]) == InString && Find(Escaped, mark, [c]).None?;
    } else {
      assert [c][1..] == [];
    }
  }

  /** Nothing in a quoted string is outside it, and it is closed at its end. */
  lemma {:induction false} QuotedIsClosed(mark: char, s: string)
    requires mark != '"'
    ensures Find(InString, mark, Quoted(s)).None? && After(InString, Quoted(s)) == Bare
    decreases |s|
  {
    if s == [] {
      assert Quoted(s)[1..] == [];
    } else {
      var front := if s[0] == '"' || s[0] == '\\' then ['\\', s[0]] else [s[0]];
      CharIsInside(mark, s[0]);
      QuotedIsClosed(mark, s[1..]);
      FindConcat(InString, mark, front, Quoted(s[1..]));
      AfterConcat(InString, front, Quoted(s[1..]));
    }
  }

  lemma {:induction false} QuotedIsLexable(s: string)
    ensures Lexable(s) ==> Lexable(Quoted(s))
    ensures Quoted(s)[|Quoted(s)| - 1] == '"'
    decreases |s|
  {
    if s != [] {
      QuotedIsLexable(s[1..]);
    }
  }

  /** A value's text: no comment in it, no string left open, nothing to trim. */
  predicate Neat(raw: string) {
    && raw != [] && !IsSpace(raw[0]) && !IsSpace(raw[|raw| - 1])
    && Find(Bare, '#', raw).None? && After(Bare, raw) == Bare && Lexable(raw)
  }

  lemma {:induction false} QuoteIsNeat(s: string)
    requires Lexable(s)
    ensures Neat(Quote(s))
  {
    QuotedIsClosed('#', s);
    QuotedIsLexable(s);
    assert Quote(s)[1..] == Quoted(s);
  }

  lemma {:induction false} EntriesAreNeat(ss: seq<string>)
    requires AllLexable(ss)
    ensures Find(Bare, '#', Entries(ss)).None? && After(Bare, Entries(ss)) == Bare && Lexable(Entries(ss))
  {
    if ss != [] {
      var q := Quote(ss[0]);
      QuoteIsNeat(ss[0]);
      if |ss| > 1 {
        EntriesAreNeat(ss[1..]);
        var more := Entries(ss[1..]);
        assert ", "[1..] == " " && " "[1..] == "";
        FindConcat(Bare, '#', ", ", more);
        AfterConcat(Bare, ", ", more);
        FindConcat(Bare, '#', q, ", " + more);
        AfterConcat(Bare, q, ", " + more);
      } else {
        assert q + [] == q;
      }
    }
  }

  lemma {:induction false} EntryThen(e: string, rest: string, ss: seq<string>)
    requires Lexable(e) && LexEntries(rest) == Some(ss) && TrimStart(rest) == rest
    ensures LexEntries(Quote(e) + ", " + rest) == Some([e] + ss)
  {
    var text := Quote(e) + ", " + rest;
    LexOfQuoted(e, ", " + rest);
    assert text[1..] == Quoted(e) + (", " + rest);
    var more := ", " + rest;
    assert more[0] == ',' && TrimStart(more) == more;
    assert more[1..] == " " + rest && (" " + rest)[1..] == rest;
    assert TrimStart(more[1..]) == rest;
  }

  lemma {:induction false} EntriesBack(ss: seq<string>)
    requires AllLexable(ss)
    ensures LexEntries(Entries(ss)) == Some(ss) && TrimStart(Entries(ss)) == Entries(ss)
  {
    if |ss| == 1 {
      LexOfQuoted(ss[0], []);
      assert Entries(ss)[1..] == Quoted(ss[0]) + [] && [ss[0]] == ss;
    } else if ss != [] {
      EntriesBack(ss[1..]);
      EntryThen(ss[0], Entries(ss[1..]), ss[1..]);
      assert Entries(ss) == Quote(ss[0]) + ", " + Entries(ss[1..]);
      assert [ss[0]] + ss[1..] == ss;
    }
  }

  lemma {:induction false} ListIsNeat(ss: seq<string>)
    requires AllLexable(ss)
    ensures Neat(ValueText(Strs(ss)))
  {
    EntriesAreNeat(ss);
    assert "["[1..] == "" && "]"[1..] == "";
    FindConcat(Bare, '#', "[", Entries(ss));
    AfterConcat(Bare, "[", Entries(ss));
    FindConcat(Bare, '#', "[" + Entries(ss), "]");
    AfterConcat(Bare, "[" + Entries(ss), "]");
  }

  lemma {:induction false} ListBack(ss: seq<string>)
    requires AllLexable(ss)
    ensures LexList(ValueText(Strs(ss))) == Some(ss)
  {
    EntriesBack(ss);
    var raw := ValueText(Strs(ss));
    assert raw[1..|raw| - 1] == Entries(ss);
  }

  /** Text with neither a quote nor a comment in it. */
  lemma {:induction false} BareText(mark: char, raw: string)
    requires mark !in raw && '"' !in raw
    ensures Find(Bare, mark, raw).None? && After(Bare, raw) == Bare
  {
    if raw != [] {
      assert raw[0] in raw;
      BareText(mark, raw[1..]);
    }
  }

  lemma {:induction false} NumberIsNeat(n: nat)
    ensures Neat(Decimal(n))
  {
    DigitsOfDecimal(n);
    DecimalLexable(n);
    BareText('#', Decimal(n));
  }

  /** The text of a value its key takes is neat. */
  lemma {:induction false} ValueIsNeat(kind: Kind, v: Value)
    requires Takes(kind, v)
    ensures Neat(ValueText(v))
  {
    match v {
      case Str(s) => QuoteIsNeat(s);
      case Num(n) => NumberIsNeat(n);
      case Bool(b) => BareText('#', ValueText(v));
      case Addr(a) =>
        CidrBack(a);
        QuoteIsNeat(CidrText(a));
      case Strs(ss) => ListIsNeat(ss);
    }
  }

  lemma {:induction false} ScalarBack(v: Value)
    requires (v.Str? && Lexable(v.s)) || (v.Num? && v.n < U64_LIMIT) || v.Bool?
    ensures LexScalar(ValueText(v)) == Some(v)
  {
    match v {
      case Str(s) =>
        LexOfQuoted(s, []);
        assert ValueText(v)[1..] == Quoted(s) + [];
        assert "true"[0] != '"' && "false"[0] != '"';
      case Num(n) =>
        UnsignedOfDecimal(n, U64_LIMIT);
        DigitsOfDecimal(n);
        assert "true"[0] == 't' && "false"[0] == 'f';
      case Bool(b) =>
    }
  }

  lemma {:induction false} DigitsAll(s: string)
    requires Digits(s).Some?
    ensures forall i :: 0 <= i < |s| ==> '0' <= s[i] <= '9'
  {
    if s != [] {
      DigitsAll(s[..|s| - 1]);
    }
  }

  /** Of all signs only a plus can stand before a number, and it changes nothing. */
  lemma {:induction false} SignIsTakenIff(sign: char, n: nat)
    requires n < U64_LIMIT && !('0' <= sign <= '9')
    ensures LexScalar([sign] + Decimal(n)) == Some(Num(n)) <==> sign == '+'
  {
    var raw := [sign] + Decimal(n);
    DigitsOfDecimal(n);
    assert raw[0] == sign && raw[1..] == Decimal(n) && '0' <= raw[1] <= '9';
    assert "true"[1] == 'r' && "false"[1] == 'a';
    if sign != '+' && Digits(raw).Some? {
      DigitsAll(raw);
    }
  }

  /** A value its key takes is read back from its text. */
  lemma {:induction false} ValueBack(kind: Kind, v: Value)
    requires Takes(kind, v)
    ensures ReadValue(kind, ValueText(v)) == Some(v)
  {
    match v {
      case Addr(a) =>
        CidrBack(a);
        ScalarBack(Str(CidrText(a)));
      case Strs(ss) => ListBack(ss);
      case _ => ScalarBack(v);
    }
  }

  // ---------------------------------------------------------------- lines there and back

  lemma {:induction false} TrimNeat(s: string)
    requires s != [] && !IsSpace(s[0]) && !IsSpace(s[|s| - 1])
    ensures Trim(s) == s && Trim(s + " ") == s && Trim(" " + s) == s
  {
    assert (" " + s)[1..] == s && (s + " ")[..|s|] == s;
  }

  lemma {:induction false} PlainFront(name: string)
    requires Plain(name)
    ensures Find(Bare, '#', name + " = ").None? && After(Bare, name + " = ") == Bare && Lexable(name + " = ")
    ensures Find(Bare, '=', name + " ").None? && After(Bare, name + " ") == Bare
  {
    BareText('#', name + " = ");
    BareText('=', name + " ");
  }

  /** A key's line is kept whole and splits at its own equals sign, whatever its value holds. */
  lemma {:induction false} KeyLineIsNeat(name: string, raw: string)
    requires Plain(name) && Neat(raw)
    ensures Neat(name + " = " + raw)
    ensures Find(Bare, '=', name + " = " + raw) == Some(|name| + 1)
  {
    PlainFront(name);
    FindConcat(Bare, '#', name + " = ", raw);
    AfterConcat(Bare, name + " = ", raw);
    FindConcat(Bare, '=', name + " ", "= " + raw);
    assert Find(Bare, '=', "= " + raw) == Some(0);
    assert name + " = " + raw == name + " " + ("= " + raw);
  }

  lemma {:induction false} KeyLineSplits(name: string, raw: string)
    requires Plain(name) && Neat(raw)
    ensures SplitKv(name + " = " + raw) == Some((name, raw))
  {
    var line := name + " = " + raw;
    KeyLineIsNeat(name, raw);
    TrimNeat(name);
    TrimNeat(raw);
    assert line[..|name| + 1] == name + " " && line[|name| + 2..] == " " + raw;
  }

  lemma {:induction false} KeyLineRead(file: seq<Table>, name: string, raw: string)
    requires Plain(name) && Neat(raw)
    ensures ReadLine(file, name + " = " + raw) == ReadKey(file, name, raw)
  {
    var line := name + " = " + raw;
    KeyLineIsNeat(name, raw);
    KeyLineSplits(name, raw);
    TrimNeat(line);
    assert line[0] == name[0];
  }

  lemma {:induction false} KeyRead(file: seq<Table>, t: Table, k: Key, name: string, raw: string, v: Value)
    requires Plain(name) && KeyNamed(t.header, name) == Some(k)
    requires KindOf(t.header, k).Some? && ReadValue(KindOf(t.header, k).value, raw) == Some(v)
    ensures ReadKey(file + [t], name, raw) == Some(file + [t.(record := t.record + [(k, v)])])
  {
    assert (file + [t])[..|file|] == file;
  }

  /** A key's line is read into the open table. */
  lemma {:induction false} KeyLineBack(file: seq<Table>, t: Table, k: Key, v: Value)
    requires KindOf(t.header, k).Some? && Takes(KindOf(t.header, k).value, v)
    ensures ReadLine(file + [t], KeyLine(k, v)) == Some(file + [t.(record := t.record + [(k, v)])])
    ensures Lexable(KeyLine(k, v))
  {
    var kind, name, raw := KindOf(t.header, k).value, KeyName(k), ValueText(v);
    ValueIsNeat(kind, v);
    ValueBack(kind, v);
    KeyNamePlain(k);
    KeyBack(t.header, k);
    KeyLineIsNeat(name, raw);
    KeyLineRead(file + [t], name, raw);
    KeyRead(file, t, k, name, raw, v);
  }

  predicate InBrackets(name: string) {
    Lexable(name) && '"' !in name && '#' !in name
  }

  lemma {:induction false} HeaderNameFits(h: Header)
    ensures InBrackets(HeaderName(h))
  {
  }

  lemma {:induction false} HeaderLineRead(file: seq<Table>, name: string)
    requires InBrackets(name)
    ensures ReadLine(file, "[" + name + "]") == ReadHeader(file, "[" + name + "]")
    ensures Lexable("[" + name + "]")
  {
    var line := "[" + name + "]";
    BareText('#', line);
    TrimNeat(line);
  }

  lemma {:induction false} HeaderRead(file: seq<Table>, h: Header, name: string)
    requires HeaderNamed(name) == Some(h)
    ensures ReadHeader(file, "[" + name + "]") == Some(file + [Table(h, [])])
  {
    var line := "[" + name + "]";
    assert line[1..|line| - 1] == name;
  }

  lemma {:induction false} HeaderLineBack(file: seq<Table>, h: Header)
    ensures ReadLine(file, HeaderLine(h)) == Some(file + [Table(h, [])]) && Lexable(HeaderLine(h))
  {
    HeaderNameFits(h);
    HeaderLineRead(file, HeaderName(h));
    HeaderBack(h);
    HeaderRead(file, h, HeaderName(h));
  }

  lemma {:induction false} RunConcat<S, L>(step: (S, L) -> Option<S>, s: S, a: seq<L>, b: seq<L>)
    ensures Run(step, s, a + b) == match Run(step, s, a) case Some(m) => Run(step, m, b) case None => None
    decreases |b|
  {
    if b == [] {
      assert a + b == a;
    } else {
      RunConcat(step, s, a, b[..|b| - 1]);
      assert (a + b)[..|a + b| - 1] == a + b[..|b| - 1];
    }
  }

  /** Steps over a list, `after` being where each front of it leads. */
  lemma {:induction false} RunEach<S, X, L>(step: (S, L) -> Option<S>, f: X -> L, after: seq<X> -> S, xs: seq<X>,
                                            n: nat)
    requires n <= |xs|
    requires forall i :: 0 <= i < |xs| ==> step(after(xs[..i]), f(xs[i])) == Some(after(xs[..i + 1]))
    ensures Run(step, after([]), Each(f, xs[..n])) == Some(after(xs[..n]))
  {
    if n > 0 {
      RunEach(step, f, after, xs, n - 1);
      assert xs[..n][..n - 1] == xs[..n - 1];
      var ls := Each(f, xs[..n - 1]);
      assert (ls + [f(xs[n - 1])])[..n - 1] == ls;
      assert step(after(xs[..n - 1]), f(xs[n - 1])) == Some(after(xs[..n]));
    } else {
      assert xs[..n] == [];
    }
  }

  lemma {:induction false} BlankIsSkipped(file: seq<Table>)
    ensures ReadLine(file, "") == Some(file)
  {
  }

  lemma {:induction false} RecordStep(file: seq<Table>, h: Header, r: Record, kv: (Key, Value), next: Record)
    requires KindOf(h, kv.0).Some? && Takes(KindOf(h, kv.0).value, kv.1) && next == r + [kv]
    ensures ReadLine(file + [Table(h, r)], LineOf(kv)) == Some(file + [Table(h, next)]) && Lexable(LineOf(kv))
  {
    var (k, v) := kv;
    KeyLineBack(file, Table(h, r), k, v);
  }

  lemma {:induction false} EachLexable<X>(f: X -> string, xs: seq<X>)
    requires forall i :: 0 <= i < |xs| ==> Lexable(f(xs[i]))
    ensures AllLexable(Each(f, xs))
  {
  }

  lemma {:induction false} RecordBack(file: seq<Table>, h: Header, r: Record)
    requires Typed(h, r)
    ensures Run(ReadLine, file + [Table(h, [])], Each(LineOf, r)) == Some(file + [Table(h, r)])
    ensures AllLexable(Each(LineOf, r))
  {
    var step, line := ReadLine, LineOf;
    var after := (xs: Record) => file + [Table(h, xs)];
    forall i | 0 <= i < |r|
      ensures step(after(r[..i]), line(r[i])) == Some(after(r[..i + 1])) && Lexable(line(r[i]))
    {
      RecordStep(file, h, r[..i], r[i], r[..i + 1]);
    }
    RunEach(step, line, after, r, |r|);
    EachLexable(line, r);
    assert r[..|r|] == r;
  }

  lemma {:induction false} RunOne<S, L>(step: (S, L) -> Option<S>, s: S, l: L)
    ensures Run(step, s, [l]) == step(s, l)
  {
    assert [l][..0] == [];
  }

  lemma {:induction false} GapBack(file: seq<Table>, first: bool)
    ensures Run(ReadLine, file, if first then [] else [""]) == Some(file)
  {
    BlankIsSkipped(file);
    RunOne(ReadLine, file, "");
  }

  lemma {:induction false} LexableBoth(a: seq<string>, b: seq<string>)
    requires AllLexable(a) && AllLexable(b)
    ensures AllLexable(a + b)
  {
  }

  lemma {:induction false} BlockBack(file: seq<Table>, first: bool, t: Table, next: seq<Table>)
    requires Typed(t.header, t.record) && next == file + [t]
    ensures Run(ReadLine, file, Block(first, t)) == Some(next) && AllLexable(Block(first, t))
  {
    var gap, head, keys := if first then [] else [""], [HeaderLine(t.header)], Each(LineOf, t.record);
    GapBack(file, first);
    HeaderLineBack(file, t.header);
    RunOne(ReadLine, file, HeaderLine(t.header));
    RecordBack(file, t.header, t.record);
    RunConcat(ReadLine, file, gap, head);
    RunConcat(ReadLine, file, gap + head, keys);
    LexableBoth(gap, head);
    LexableBoth(gap + head, keys);
  }

  predicate AllTyped(file: seq<Table>) {
    forall i :: 0 <= i < |file| ==> Typed(file[i].header, file[i].record)
  }

  /** Blocks that each add their own element add them all. */
  lemma {:induction false} RunBlocks<X, L>(step: (seq<X>, L) -> Option<seq<X>>, block: (bool, X) -> seq<L>, xs: seq<X>,
                                           n: nat)
    requires n <= |xs|
    requires forall i :: 0 <= i < |xs| ==> Run(step, xs[..i], block(i == 0, xs[i])) == Some(xs[..i + 1])
    ensures Run(step, [], Blocks(block, xs[..n])) == Some(xs[..n])
  {
    if n > 0 {
      var i := n - 1;
      RunBlocks(step, block, xs, i);
      assert xs[..n][..i] == xs[..i];
      RunConcat(step, [], Blocks(block, xs[..i]), block(i == 0, xs[i]));
      assert Run(step, xs[..i], block(i == 0, xs[i])) == Some(xs[..n]);
    }
  }

  lemma {:induction false} BlocksLexable<X>(block: (bool, X) -> seq<string>, xs: seq<X>, n: nat)
    requires n <= |xs|
    requires forall i :: 0 <= i < |xs| ==> AllLexable(block(i == 0, xs[i]))
    ensures AllLexable(Blocks(block, xs[..n]))
  {
    if n > 0 {
      var i := n - 1;
      BlocksLexable(block, xs, i);
      assert xs[..n][..i] == xs[..i];
      assert AllLexable(block(i == 0, xs[i]));
      LexableBoth(Blocks(block, xs[..i]), block(i == 0, xs[i]));
    }
  }

  lemma {:induction false} FileBack(file: seq<Table>)
    requires AllTyped(file)
    ensures ReadLines(FileLines(file)) == Some(file) && AllLexable(FileLines(file))
  {
    var step, block := ReadLine, Block;
    forall i | 0 <= i < |file|
      ensures Run(step, file[..i], block(i == 0, file[i])) == Some(file[..i + 1])
      ensures AllLexable(block(i == 0, file[i]))
    {
      BlockBack(file[..i], i == 0, file[i], file[..i + 1]);
    }
    RunBlocks(step, block, file, |file|);
    BlocksLexable(block, file, |file|);
    assert file[..|file|] == file;
  }

  lemma {:induction false} UnlinesFront(ls: seq<string>)
    requires ls != []
    ensures Unlines(ls) == ls[0] + "\n" + Unlines(ls[1..])
  {
    if |ls| > 1 {
      var n := |ls| - 1;
      UnlinesFront(ls[..n]);
      assert ls[..n][1..] == ls[1..][..n - 1] && ls[1..][n - 1] == ls[n];
    } else {
      assert Unlines(ls[..0]) == [] && Unlines(ls[1..]) == [];
    }
  }

  /** Lines without control characters are split where they were joined. */
  lemma {:induction false} LinesBack(ls: seq<string>)
    requires AllLexable(ls)
    ensures Lines(Unlines(ls)) == ls
  {
    if ls != [] {
      UnlinesFront(ls);
      LinesBack(ls[1..]);
      CutBack(ls[0], '\n', Unlines(ls[1..]));
      assert "\n" == ['\n'] && [ls[0]] + ls[1..] == ls;
    }
  }

  /** A file of tables whose keys and kinds fit its grammar is read back from its text. */
  lemma {:induction false} TextBack(file: seq<Table>)
    requires AllTyped(file)
    ensures ReadText(WriteText(file)) == Some(file)
  {
    FileBack(file);
    LinesBack(FileLines(file));
  }

  lemma {:induction false} TakeIsTyped(h: Derivation, st: Parsing, t: Table)
    requires Take(h, st, t).Some?
    ensures Typed(t.header, t.record)
  {
  }

  lemma {:induction false} ParseFront(h: Derivation, file: seq<Table>, n: nat)
    requires |file| == n + 1 && ParseTables(h, file).Some?
    ensures ParseTables(h, file[..n]).Some? && Typed(file[n].header, file[n].record)
  {
    TakeIsTyped(h, ParseTables(h, file[..n]).value, file[n]);
  }

  lemma {:induction false} TypedNext(file: seq<Table>, n: nat)
    requires |file| == n + 1 && AllTyped(file[..n]) && Typed(file[n].header, file[n].record)
    ensures AllTyped(file)
  {
    forall i | 0 <= i < |file|
      ensures Typed(file[i].header, file[i].record)
    {
      if i < n {
        assert file[i] == file[..n][i];
      }
    }
  }

  lemma {:induction false} TakenIsTyped(h: Derivation, file: seq<Table>)
    requires ParseTables(h, file).Some?
    ensures AllTyped(file)
  {
    if file != [] {
      var n := |file| - 1;
      ParseFront(h, file, n);
      TakenIsTyped(h, file[..n]);
      TypedNext(file, n);
    }
  }

  /** The text written for a config is read back as that config exactly when it is well formed. */
  lemma {:induction false} TextRoundTripIff(h: Derivation, c: Config)
    ensures ParseText(h, WriteText(Serialize(h, c))) == Some(c) <==> WellFormed(c)
  {
    var file := Serialize(h, c);
    if WellFormed(c) {
      RoundTripIffWellFormed(h, c);
      TakenIsTyped(h, file);
      TextBack(file);
    } else if ReadText(WriteText(file)).Some? && Parse(h, ReadText(WriteText(file)).value).Some? {
      ParsedIsWellFormed(h, ReadText(WriteText(file)).value);
    }
  }

  /** What a text is loaded as is what its rewriting is loaded as. */
  lemma {:induction false} SavedTextLoadsTheSame(h: Derivation, text: string)
    requires ParseText(h, text).Some?
    ensures var c := ParseText(h, text).value; ParseText(h, WriteText(Serialize(h, c))) == Some(c)
  {
    ParsedIsWellFormed(h, ReadText(text).value);
    TextRoundTripIff(h, ParseText(h, text).value);
  }

  /** A note put after a line is a comment exactly when the line leaves no string open. */
  lemma {:induction false} NoteIsCommentIff(line: string, note: string)
    requires Find(Bare, '#', line).None?
    ensures StripComment(line + "#" + note) == line <==> After(Bare, line) == Bare
  {
    FindConcat(Bare, '#', line, "#" + note);
    assert line + "#" + note == line + ("#" + note);
    if After(Bare, line) == Bare {
      assert Find(Bare, '#', "#" + note) == Some(0);
      assert (line + ("#" + note))[..|line|] == line;
    }
  }

  // ---------------------------------------------------------------- the loops

  method ReadEach(text: string) returns (r: Option<seq<Table>>)
    ensures r == ReadText(text)
    ensures r.Some? ==> AllTyped(r.value)
  {
    var ls := Lines(text);
    var file: seq<Table> := [];
    var i := 0;
    while i < |ls|
      invariant 0 <= i <= |ls| && ReadLines(ls[..i]) == Some(file) && AllTyped(file)
    {
      assert ls[..i + 1][..i] == ls[..i];
      var next := ReadLine(file, ls[i]);
      if next.None? {
        StuckLine(ls, i + 1);
        return None;
      }
      LineKeepsTyped(file, ls[i]);
      file := next.value;
      i := i + 1;
    }
    assert ls[..i] == ls;
    r := Some(file);
  }

  lemma {:induction false} StuckLine(ls: seq<string>, n: nat)
    requires n <= |ls| && ReadLines(ls[..n]).None?
    ensures ReadLines(ls).None?
    decreases |ls|
  {
    if n == |ls| {
      assert ls[..n] == ls;
    } else {
      assert ls[..|ls| - 1][..n] == ls[..n];
      StuckLine(ls[..|ls| - 1], n);
    }
  }

  lemma {:induction false} UnlinesConcat(a: seq<string>, b: seq<string>)
    ensures Unlines(a + b) == Unlines(a) + Unlines(b)
    decreases |b|
  {
    if b == [] {
      assert a + b == a;
    } else {
      UnlinesConcat(a, b[..|b| - 1]);
      assert (a + b)[..|a + b| - 1] == a + b[..|b| - 1];
    }
  }

  lemma {:induction false} UnlinesOne(line: string)
    ensures Unlines([line]) == line + "\n"
  {
    assert [line][..0] == [];
  }

  lemma {:induction false} EachNext<X>(f: X -> string, xs: seq<X>, i: nat)
    requires i < |xs|
    ensures Unlines(Each(f, xs[..i + 1])) == Unlines(Each(f, xs[..i])) + f(xs[i]) + "\n"
  {
    assert xs[..i + 1][..i] == xs[..i];
    var ls := Each(f, xs[..i]);
    assert Each(f, xs[..i + 1]) == ls + [f(xs[i])];
    UnlinesOne(f(xs[i]));
    UnlinesConcat(ls, [f(xs[i])]);
  }

  lemma {:induction false} JoinLine(before: string, lines: string, line: string)
    ensures before + lines + line + "\n" == before + (lines + line + "\n")
  {
  }

  method AppendEach<X>(before: string, f: X -> string, xs: seq<X>) returns (text: string)
    ensures text == before + Unlines(Each(f, xs))
  {
    text := before;
    var i := 0;
    while i < |xs|
      invariant 0 <= i <= |xs| && text == before + Unlines(Each(f, xs[..i]))
    {
      EachNext(f, xs, i);
      JoinLine(before, Unlines(Each(f, xs[..i])), f(xs[i]));
      text := text + f(xs[i]) + "\n";
      i := i + 1;
    }
    assert xs[..i] == xs;
  }

  lemma {:induction false} BlockText(gap: seq<string>, head: string, keys: seq<string>)
    requires gap == [] || gap == [""]
    ensures Unlines(gap + [head] + keys) == (if gap == [] then [] else "\n") + head + "\n" + Unlines(keys)
  {
    UnlinesOne("");
    UnlinesOne(head);
    UnlinesConcat(gap, [head]);
    UnlinesConcat(gap + [head], keys);
  }

  lemma {:induction false} JoinBlock(before: string, gap: string, head: string, keys: string)
    ensures before + gap + head + "\n" + keys == before + (gap + head + "\n" + keys)
  {
  }

  /** A table appended to the text before it, a blank line between them. */
  method AppendTable<X>(before: string, head: string, f: X -> string, xs: seq<X>) returns (text: string)
    ensures text == before + Unlines((if before == [] then [] else [""]) + [head] + Each(f, xs)) && text != []
  {
    text := before;
    if text != [] {
      text := text + "\n";
    }
    text := text + head + "\n";
    text := AppendEach(text, f, xs);
    var gap := if before == [] then [] else "\n";
    JoinBlock(before, gap, head, Unlines(Each(f, xs)));
    BlockText(if before == [] then [] else [""], head, Each(f, xs));
  }

  lemma {:induction false} BlocksNext<X>(block: (bool, X) -> seq<string>, xs: seq<X>, i: nat)
    requires i < |xs|
    ensures Unlines(Blocks(block, xs[..i + 1])) == Unlines(Blocks(block, xs[..i])) + Unlines(block(i == 0, xs[i]))
  {
    assert xs[..i + 1][..i] == xs[..i];
    UnlinesConcat(Blocks(block, xs[..i]), block(i == 0, xs[i]));
  }

  /** The text written for a file, which is read back as that file if its tables are typed. */
  method WriteEachTable(file: seq<Table>) returns (text: string)
    ensures text == WriteText(file)
    ensures AllTyped(file) ==> ReadText(text) == Some(file)
  {
    text := "";
    var i := 0;
    while i < |file|
      invariant 0 <= i <= |file| && text == WriteText(file[..i]) && (text == [] <==> i == 0)
    {
      BlocksNext(Block, file, i);
      text := AppendTable(text, HeaderLine(file[i].header), LineOf, file[i].record);
      i := i + 1;
    }
    assert file[..i] == file;
    if AllTyped(file) {
      TextBack(file);
    }
  }

  lemma {:induction false} EntriesAreLexable(rest: string)
    requires LexEntries(rest).Some?
    ensures AllLexable(LexEntries(rest).value)
    decreases |rest|
  {
    if rest != [] {
      LexShrinks(rest[1..]);
      var more := TrimStart(LexString(rest[1..]).value.1);
      TrimStartShrinks(LexString(rest[1..]).value.1);
      if more != [] {
        TrimStartShrinks(more[1..]);
        EntriesAreLexable(TrimStart(more[1..]));
      }
    }
  }

  lemma {:induction false} OctetsFit(s: string, n: nat)
    requires ReadOctets(s, n).Some?
    ensures ReadOctets(s, n).value < Pow256(n + 1)
    decreases n
  {
    if n > 0 {
      OctetsFit(Cut(s, '.').value.1, n - 1);
      var x, y, p := Octet(Cut(s, '.').value.0).value, ReadOctets(Cut(s, '.').value.1, n - 1).value, Pow256(n);
      OctetFits(x, y, p);
    }
  }

  lemma {:induction false} CutIs(s: string, c: char)
    requires Cut(s, c).Some?
    ensures s == Cut(s, c).value.0 + [c] + Cut(s, c).value.1
  {
    if s[0] != c {
      CutIs(s[1..], c);
    }
  }

  /** Main result: an address has one spelling. What is read is the dotted decimal of what it
      reads as, with no zero in front and each number below 256. */
  lemma {:induction false} AddressIsReadIff(s: string, n: nat, ip: nat)
    ensures ReadOctets(s, n) == Some(ip) <==> ip < Pow256(n + 1) && s == Dotted(ip, n)
  {
    if ReadOctets(s, n) == Some(ip) {
      OctetsFit(s, n);
      OctetsAre(s, n);
    }
    if ip < Pow256(n + 1) && s == Dotted(ip, n) {
      DottedBack(ip, n);
    }
  }

  lemma {:induction false} OctetsAre(s: string, n: nat)
    requires ReadOctets(s, n).Some?
    ensures s == Dotted(ReadOctets(s, n).value, n)
    decreases n
  {
    if n == 0 {
      DecimalOfDigits(s);
    } else {
      var (a, b) := Cut(s, '.').value;
      var x, y, p := Octet(a).value, ReadOctets(b, n - 1).value, Pow256(n);
      CutIs(s, '.');
      DecimalOfDigits(a);
      OctetsFit(b, n - 1);
      OctetsAre(b, n - 1);
      LeadsAndRest(x, y, p);
      assert s == a + "." + b;
    }
  }

  lemma {:induction false} LeadsAndRest(x: nat, y: nat, p: nat)
    requires y < p
    ensures (x * p + y) / p == x && (x * p + y) % p == y
  {
    QuotientIs(x * p + y, p, x, y);
  }

  lemma {:induction false} OctetFits(x: nat, y: nat, p: nat)
    requires x < 256 && y < p
    ensures x * p + y < 256 * p
  {
    assert x * p <= 255 * p;
  }

  /** A value that is read is one its key takes. */
  lemma {:induction false} ReadIsTaken(kind: Kind, raw: string)
    requires ReadValue(kind, raw).Some?
    ensures Takes(kind, ReadValue(kind, raw).value)
  {
    if kind.ListKind? {
      EntriesAreLexable(TrimStart(raw[1..|raw| - 1]));
    } else if kind.CidrKind? {
      assert Pow256(1) == 256 && Pow256(2) == 0x1_0000 && Pow256(3) == 0x100_0000 && Pow256(4) == U32_LIMIT;
      OctetsFit(Cut(ReadStr(raw).value, '/').value.0, 3);
    }
  }

  lemma {:induction false} LineKeepsTyped(file: seq<Table>, raw: string)
    requires AllTyped(file) && ReadLine(file, raw).Some?
    ensures AllTyped(ReadLine(file, raw).value)
  {
    var line := Trim(StripComment(raw));
    if line != [] && line[0] != '[' {
      var (key, value) := SplitKv(line).value;
      var t := file[|file| - 1];
      var k := KeyNamed(t.header, key).value;
      ReadIsTaken(KindOf(t.header, k).value, value);
    }
  }
}
