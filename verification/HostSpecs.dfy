/**
 Listen addresses and backend targets: `host:port/network`. Text is a sequence of bytes written as characters.
 `SplitHostPort` follows the documented behaviour of Go's `net.SplitHostPort`, which the program calls.
 */
module HostSpecs {
  import opened Wrappers
  import opened Decimals
  import opened Strings

  datatype Error =
    | MissingPort
    | TooManyColons
    | MissingBracket
    | UnexpectedOpen
    | UnexpectedClose
    | BadPort

  type Port = n: nat | n < 0x1_0000

  /** The fields of a `HostSpec`. */
  datatype Spec = Spec(host: string, port: Port, network: string)

  // ---------- net.SplitHostPort ----------

  /** The last position of `c`, or -1. */
  function LastIndexOf(s: string, c: char): (i: int)
    ensures -1 <= i < |s|
    ensures i >= 0 ==> s[i] == c && c !in s[i + 1..]
    ensures i < 0 <==> c !in s
  {
    if s == "" then -1
    else
      var n := |s| - 1;
      assert s == s[..n] + [s[n]];
      if s[n] == c then n
      else
        var i := LastIndexOf(s[..n], c);
        if i < 0 then -1 else
        assert s[i + 1..] == s[..n][i + 1..] + [s[n]];
        i
  }

  lemma {:induction false} LastIndexAt(a: string, c: char, b: string)
    requires c !in b
    ensures var s := a + [c] + b; LastIndexOf(s, c) == |a| && s[..|a|] == a && s[|a| + 1..] == b
  {
    if b != "" {
      var s, b' := a + [c] + b, b[..|b| - 1];
      LastIndexAt(a, c, b');
      assert s[..|s| - 1] == a + [c] + b';
    }
  }

  function SplitHostPort(hostport: string): Result<(string, string), Error> {
    var i := LastIndexOf(hostport, ':');
    if i < 0 then Err(MissingPort)
    else if hostport[0] == '[' then
      var end := IndexOf(hostport, ']');
      if end < 0 then Err(MissingBracket)
      else if end + 1 == |hostport| then Err(MissingPort)
      else if end + 1 != i then
        if hostport[end + 1] == ':' then Err(TooManyColons) else Err(MissingPort)
      else if '[' in hostport[1..] then Err(UnexpectedOpen)
      else if ']' in hostport[end + 1..] then Err(UnexpectedClose)
      else Ok((hostport[1..end], hostport[i + 1..]))
    else if ':' in hostport[..i] then Err(TooManyColons)
    else if '[' in hostport then Err(UnexpectedOpen)
    else if ']' in hostport then Err(UnexpectedClose)
    else Ok((hostport[..i], hostport[i + 1..]))
  }

  /** No colon and no square bracket. */
  predicate Plain(s: string) {
    ':' !in s && '[' !in s && ']' !in s
  }

  predicate Bracketable(s: string) {
    '[' !in s && ']' !in s
  }

  lemma SplitPlain(h: string, p: string)
    requires Plain(h) && Plain(p)
    ensures SplitHostPort(h + ":" + p) == Ok((h, p))
  {
    LastIndexAt(h, ':', p);
    assert h != "" ==> h[0] in h;
  }

  lemma SplitBracketed(h: string, p: string)
    requires Bracketable(h) && Plain(p)
    ensures SplitHostPort("[" + h + "]:" + p) == Ok((h, p))
  {
    hide IndexOf, LastIndexOf;
    var s, end := "[" + h + "]:" + p, |h| + 1;
    assert s == "[" + h + [']'] + (":" + p);
    IndexAt("[" + h, ']', ":" + p);
    assert s == "[" + h + "]" + [':'] + p;
    LastIndexAt("[" + h + "]", ':', p);
    assert s[1..end] == h;
    assert s[1..] == h + "]:" + p;
    assert s[end + 1..] == ":" + p;
  }

  lemma InversePlain(s: string)
    requires SplitHostPort(s).Ok? && s[0] != '['
    ensures var (h, p) := SplitHostPort(s).value; Plain(h) && Plain(p) && s == h + ":" + p
    ensures forall c :: c in SplitHostPort(s).value.0 ==> c in s
  {
    hide IndexOf, LastIndexOf;
    var (h, p) := SplitHostPort(s).value;
    assert s == h + ":" + p;
    assert forall c :: c in h || c in p ==> c in s;
  }

  lemma InverseBracketed(s: string)
    requires SplitHostPort(s).Ok? && s[0] == '['
    ensures var (h, p) := SplitHostPort(s).value; Bracketable(h) && Plain(p) && s == "[" + h + "]:" + p
    ensures forall c :: c in SplitHostPort(s).value.0 ==> c in s
  {
    hide IndexOf, LastIndexOf;
    var (h, p) := SplitHostPort(s).value;
    var end := IndexOf(s, ']');
    assert s[1..] == h + "]:" + p;
    assert s[end + 1..] == ":" + p;
    assert s[..end] == "[" + h;
    assert forall c :: c in h || c in p ==> c in s[1..];
    assert forall c :: c in p ==> c in s[end + 1..];
    assert forall c :: c in h ==> c in s[..end];
  }

  lemma SplitInverse(s: string)
    requires SplitHostPort(s).Ok?
    ensures var (h, p) := SplitHostPort(s).value;
            (Plain(h) && Plain(p) && s == h + ":" + p) || (Bracketable(h) && Plain(p) && s == "[" + h + "]:" + p)
    ensures forall c :: c in SplitHostPort(s).value.0 ==> c in s
  {
    assert s != "";
    hide SplitHostPort;
    if s[0] == '[' { InverseBracketed(s); } else { InversePlain(s); }
  }

  /** Exactly what is accepted, and as what: `h:p` or `[h]:p`, brackets allowing colons in the host. */
  lemma SplitAccepts(s: string, h: string, p: string)
    ensures SplitHostPort(s) == Ok((h, p)) <==>
            && ':' !in p && '[' !in p && ']' !in p && '[' !in h && ']' !in h
            && ((':' !in h && s == h + ":" + p) || s == "[" + h + "]:" + p)
  {
    if SplitHostPort(s).Ok? { SplitInverse(s); }
    if Plain(h) && Plain(p) { SplitPlain(h, p); }
    if Bracketable(h) && Plain(p) { SplitBracketed(h, p); }
  }

  /** The text is `host` with a port behind it, the host in brackets or not. */
  ghost predicate WithPort(text: string, host: string) {
    exists p :: Plain(p)
      && ((Plain(host) && text == host + ":" + p) || (Bracketable(host) && text == "[" + host + "]:" + p))
  }

  /** A text that splits has a port behind exactly one host; any other has none. */
  lemma SplitWithPort(text: string, host: string)
    ensures WithPort(text, host) <==> SplitHostPort(text).Ok? && SplitHostPort(text).value.0 == host
  {
    hide SplitHostPort;
    if p :| Plain(p)
            && ((Plain(host) && text == host + ":" + p) || (Bracketable(host) && text == "[" + host + "]:" + p)) {
      SplitAccepts(text, host, p);
    }
    if SplitHostPort(text).Ok? { SplitInverse(text); }
  }

  // ---------- HostSpec ----------

  /** `strings.SplitN(text, "/", 2)`: the part before the first slash, and the part after it if there is one. */
  function CutNetwork(text: string): (r: (string, Option<string>))
  {
    var i := IndexOf(text, '/');
    if i < 0 then (text, None) else (text[..i], Some(text[i + 1..]))
  }

  function NetworkOf(text: string): string {
    var network := CutNetwork(text).1;
    if network.Some? then network.value else "tcp"
  }

  /** What a text means as a `HostSpec`. */
  function Parse(text: string): Result<Spec, Error> {
    var split := SplitHostPort(CutNetwork(text).0);
    if split.Err? then Err(split.error)
    else
      var port := ParseUint(split.value.1, 0x1_0000);
      if port.None? then Err(BadPort) else Ok(Spec(split.value.0, port.value, NetworkOf(text)))
  }

  /** `HostSpec.String`, which is also what `MarshalText` writes. */
  function Print(u: Spec): string {
    u.host + ":" + Decimal(u.port) + "/" + u.network
  }

  // ---------- What is accepted, in words ----------

  /** The text is `h:p` or `[h]:p` for a decimal port, alone for the network tcp or before a slash and the network. */
  ghost predicate Spells(text: string, h: string, port: nat, n: string) {
    exists front, p ::
      && '/' !in front && ((text == front && n == "tcp") || text == front + "/" + n)
      && ((':' !in h && front == h + ":" + p) || front == "[" + h + "]:" + p)
      && '[' !in h && ']' !in h && IsDecimal(p) && Value(p) == port < 0x1_0000
  }

  lemma CutSlash(front: string, n: string)
    requires '/' !in front
    ensures CutNetwork(front + "/" + n) == (front, Some(n))
  {
    IndexAt(front, '/', n);
  }

  lemma CutIs(text: string)
    ensures '/' !in CutNetwork(text).0
    ensures CutNetwork(text).1.None? ==> CutNetwork(text).0 == text
    ensures CutNetwork(text).1.Some? ==> text == CutNetwork(text).0 + "/" + CutNetwork(text).1.value
  {
  }

  lemma DecimalPlain(p: string)
    requires IsDecimal(p)
    ensures ':' !in p && '[' !in p && ']' !in p
  {
  }

  lemma ParseMeans(text: string, h: string, port: nat, n: string)
    ensures Spells(text, h, port, n) <==> port < 0x1_0000 && Parse(text) == Ok(Spec(h, port, n))
  {
    hide CutNetwork, SplitHostPort, Value;
    var front, network := CutNetwork(text).0, NetworkOf(text);
    CutIs(text);
    if Parse(text).Ok? {
      var (host, p) := SplitHostPort(front).value;
      SplitAccepts(front, host, p);
      assert Spells(text, host, Value(p), network);
    }
    if front', p :|
      && '/' !in front' && ((text == front' && n == "tcp") || text == front' + "/" + n)
      && ((':' !in h && front' == h + ":" + p) || front' == "[" + h + "]:" + p)
      && '[' !in h && ']' !in h && IsDecimal(p) && Value(p) == port < 0x1_0000 {
      if text == front' + "/" + n { CutSlash(front', n); }
      DecimalPlain(p);
      SplitAccepts(front', h, p);
    }
  }

  /** A text spells one value at most, and its network is that value's whether or not the rest can be read. */
  lemma TextMeans(text: string)
    ensures Parse(text).Ok? <==> exists h, p, n :: Spells(text, h, p, n)
    ensures forall h, p, n :: Spells(text, h, p, n) ==> p < 0x1_0000 && Parse(text) == Ok(Spec(h, p, n))
    ensures '/' !in text ==> NetworkOf(text) == "tcp"
    ensures forall front, n :: '/' !in front && text == front + "/" + n ==> NetworkOf(text) == n
  {
    assert '/' !in text ==> NetworkOf(text) == "tcp";
    forall front, n | '/' !in front && text == front + "/" + n
      ensures NetworkOf(text) == n
    {
      CutSlash(front, n);
    }
    hide Spells, Parse, NetworkOf;
    if Parse(text).Ok? {
      var u := Parse(text).value;
      ParseMeans(text, u.host, u.port, u.network);
    }
    forall h, p, n | Spells(text, h, p, n)
      ensures p < 0x1_0000 && Parse(text) == Ok(Spec(h, p, n))
    {
      ParseMeans(text, h, p, n);
    }
  }

  class HostSpec {
    var host: string
    var port: Port
    var network: string

    ghost function Fields(): Spec
      reads this
    {
      Spec(host, port, network)
    }

    /** Sets all three fields on success; a rejected text has already overwritten the network. */
    method UnmarshalText(text: string) returns (err: Option<Error>)
      modifies this
      ensures err == None <==> exists h, p, n :: Spells(text, h, p, n)
      ensures forall h, p, n :: Spells(text, h, p, n) ==> host == h && port == p && network == n
      ensures err.Some? ==> host == old(host) && port == old(port)
      ensures '/' !in text ==> network == "tcp"
      ensures forall front, n :: '/' !in front && text == front + "/" + n ==> network == n
      ensures Parse(text).Ok? ==> err == None && Fields() == Parse(text).value
      ensures Parse(text).Err? ==> err == Some(Parse(text).error)
      ensures Parse(text).Err? ==> Fields() == old(Fields()).(network := NetworkOf(text))
    {
      TextMeans(text);
      hide Spells, SplitHostPort, ParseUint, IndexOf;
      var splitPort := CutNetwork(text);
      if splitPort.1.Some? {
        network := splitPort.1.value;
      } else {
        network := "tcp";
      }
      var split := SplitHostPort(splitPort.0);
      if split.Err? {
        return Some(split.error);
      }
      var numPort := ParseUint(split.value.1, 0x1_0000);
      if numPort.None? {
        return Some(BadPort);
      }
      host := split.value.0;
      port := numPort.value;
      return None;
    }
  }

  lemma PlainSpells(h: string, p: string)
    requires Plain(h) && '/' !in h && IsDecimal(p) && Value(p) < 0x1_0000
    ensures Spells(h + ":" + p, h, Value(p), "tcp")
  {
    assert '/' !in h + ":" + p;
  }

  lemma BracketedSpells(h: string, p: string, n: string)
    requires Bracketable(h) && '/' !in h && IsDecimal(p) && Value(p) < 0x1_0000
    ensures Spells("[" + h + "]:" + p + "/" + n, h, Value(p), n)
  {
    assert '/' !in "[" + h + "]:" + p;
  }

  /** A listen address with its network left to the default. */
  lemma ListenAddress()
    ensures Parse("127.0.0.1:8080") == Ok(Spec("127.0.0.1", 8080, "tcp"))
  {
    var ip, port := "127.0.0.1", "8080";
    assert Plain(ip) && '/' !in ip && IsDecimal(port);
    hide Parse, Decimal, Spells;
    ValueHere();
    hide Value;
    PlainSpells(ip, port);
    assert ip + ":" + port == "127.0.0.1:8080";
    ParseMeans(ip + ":" + port, ip, 8080, "tcp");
  }

  /** How it is printed. */
  lemma PrintedAddress()
    ensures Print(Spec("127.0.0.1", 8080, "tcp")) == "127.0.0.1:8080/tcp"
  {
    hide Value, Decimal;
    ValueHere();
    DecimalIsOnly("8080", 8080);
    var ip, port := "127.0.0.1", "8080";
    assert port[0] == '8';
    assert ip + ":" + port == "127.0.0.1:8080";
    assert "127.0.0.1:8080" + "/tcp" == "127.0.0.1:8080/tcp";
  }

  /** One in brackets, with a network. */
  lemma BracketedAddress()
    ensures Parse("[::1]:443/udp") == Ok(Spec("::1", 443, "udp"))
  {
    ValueHere();
    hide Parse, Value, Decimal, Spells;
    BracketedSpells("::1", "443", "udp");
    assert "[" + "::1" + "]:" + "443" + "/" + "udp" == "[::1]:443/udp";
    ParseMeans("[::1]:443/udp", "::1", 443, "udp");
  }

  lemma PrintCut(u: Spec)
    requires '/' !in u.host
    ensures CutNetwork(Print(u)) == (u.host + ":" + Decimal(u.port), Some(u.network))
  {
    var front := u.host + ":" + Decimal(u.port);
    assert '/' !in Decimal(u.port);
    assert Print(u) == front + ['/'] + u.network;
    IndexAt(front, '/', u.network);
  }

  /** Whatever is accepted, the host it yields holds no slash and no square bracket. */
  lemma ParsedHost(text: string)
    requires Parse(text).Ok?
    ensures var h := Parse(text).value.host; '/' !in h && '[' !in h && ']' !in h
  {
    var front := CutNetwork(text).0;
    assert '/' !in front;
    assert SplitHostPort(front).Ok? && Parse(text).value.host == SplitHostPort(front).value.0;
    hide SplitHostPort, Parse, CutNetwork;
    SplitInverse(front);
  }

  /** A printed host that holds a colon is never accepted back. */
  lemma ColonHostRejected(u: Spec)
    requires ':' in u.host && '/' !in u.host && '[' !in u.host && ']' !in u.host
    ensures Parse(Print(u)) == Err(TooManyColons)
  {
    PrintCut(u);
    LastIndexAt(u.host, ':', Decimal(u.port));
    assert u.host[0] in u.host;
  }

  /** Round trip: printing then parsing gives the value back exactly for hosts free of `:`, `/`, `[` and `]`. */
  lemma RoundTrip(u: Spec)
    ensures Parse(Print(u)) == Ok(u) <==> ':' !in u.host && '/' !in u.host && '[' !in u.host && ']' !in u.host
  {
    if ':' !in u.host && '/' !in u.host && '[' !in u.host && ']' !in u.host {
      PlainHostAccepted(u);
    } else if Parse(Print(u)) == Ok(u) {
      ParsedHost(Print(u));
      ColonHostRejected(u);
    }
  }

  lemma PlainHostAccepted(u: Spec)
    requires Plain(u.host) && '/' !in u.host
    ensures Parse(Print(u)) == Ok(u)
  {
    PrintCut(u);
    var d := Decimal(u.port);
    SplitPlain(u.host, d);
    ParseOfDecimal(u.port, 0x1_0000);
  }

  /**
   Parse, print, parse again: the same value exactly when the parsed host has no colon. The others are the
   bracketed hosts, whose brackets printing drops, and their printed text is rejected outright.
   */
  lemma Reparse(text: string)
    requires Parse(text).Ok?
    ensures var u := Parse(text).value;
            && (Parse(Print(u)) == Ok(u) <==> ':' !in u.host)
            && (':' in u.host ==> Parse(Print(u)) == Err(TooManyColons))
  {
    var u := Parse(text).value;
    ParsedHost(text);
    RoundTrip(u);
    if ':' in u.host { ColonHostRejected(u); }
  }
}
