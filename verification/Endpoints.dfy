/** Peer endpoints: parsing and printing (core/endpoint.py). Character classes and the IP address
    grammars come in as recognisers. */
module Endpoints {
  import opened Common
  import opened Decimal

  datatype Text = Text(isSpace: char -> bool, isDecimal: char -> bool, isV4: string -> bool, isV6: string -> bool)

  predicate Marks(c: char) { c == ':' || c == '[' || c == ']' }

  /** What the proofs need of them: ASCII letters, digits, the marks of an endpoint and the percent sign
      of a zone are no white space; an IPv4 address is made of digits and dots; an IPv6 address has a
      colon. */
  ghost predicate Lawful(t: Text) {
    && (forall c: char :: IsAlphanumeric(c) || Marks(c) || c == '%' ==> !t.isSpace(c))
    && (forall h: string :: t.isV4(h) ==> forall i :: 0 <= i < |h| ==> IsDigit(h[i]) || h[i] == '.')
    && (forall h: string :: t.isV6(h) ==> ':' in h)
  }

  datatype Endpoint = Endpoint(host: string, port: nat)

  type Parsed = Result<Endpoint, string>

  // ---- string operations

  function Find(s: string, c: char): (k: int)
    ensures -1 <= k < |s|
    ensures k == -1 ==> c !in s
    ensures k >= 0 ==> s[k] == c && c !in s[..k]
  {
    if s == "" then -1
    else if s[0] == c then 0
    else
      var k := Find(s[1..], c);
      if k < 0 then -1 else (assert s[..k + 1] == [s[0]] + s[1..][..k]; k + 1)
  }

  function Count(s: string, c: char): nat { if s == "" then 0 else (if s[0] == c then 1 else 0) + Count(s[1..], c) }

  function Split(s: string, c: char): seq<string> {
    var k := Find(s, c);
    if k < 0 then [s] else [s[..k]] + Split(s[k + 1..], c)
  }

  function Without(s: string, c: char): string {
    if s == "" then "" else (if s[0] == c then "" else [s[0]]) + Without(s[1..], c)
  }

  // ---- hosts and ports

  predicate IsAlphanumeric(c: char) { 'A' <= c <= 'Z' || 'a' <= c <= 'z' || IsDigit(c) }

  predicate IsLabel(s: string) {
    && 1 <= |s| <= 63 && IsAlphanumeric(s[0]) && IsAlphanumeric(s[|s| - 1])
    && forall i :: 0 <= i < |s| ==> IsAlphanumeric(s[i]) || s[i] == '_' || s[i] == '-'
  }

  predicate AllLabels(labels: seq<string>) { forall i :: 0 <= i < |labels| ==> IsLabel(labels[i]) }

  predicate AllDecimal(t: Text, s: string) { s != "" && forall i :: 0 <= i < |s| ==> t.isDecimal(s[i]) }

  predicate HasSpace(t: Text, s: string) { exists i :: 0 <= i < |s| && t.isSpace(s[i]) }

  function ValidateHost(t: Text, host: string): Option<string>
    requires host != ""
  {
    if t.isV4(host) || t.isV6(host) then None
    else if AllDecimal(t, Without(host, '.')) && '.' in host then Some("Malformed IPv4 address")
    else if ':' in host then Some("Malformed IPv6 address")
    else
      var candidate := if host[|host| - 1] == '.' then host[..|host| - 1] else host;
      if candidate == "" || !AllLabels(Split(candidate, '.')) then Some("Malformed host name") else None
  }

  function ValidatePort(port: int): Result<int, string> {
    if 1 <= port <= 65535 then Ok(port) else Err("port must be between 1 and 65535")
  }

  function ParsePort(s: string): Result<int, string> {
    if s == "" || !AllDigits(s) then Err("Port must be a number") else ValidatePort(Read(s))
  }

  /** Construction, with the checks of __post_init__. */
  function Make(t: Text, host: string, port: int): Parsed {
    if host == "" then Err("Host is required")
    else if HasSpace(t, host) then Err("Address must not contain whitespace")
    else if |host| > 253 then Err("Host name is too long")
    else
      match ValidatePort(port)
      case Err(error) => Err(error)
      case Ok(_) =>
        match ValidateHost(t, host)
        case Some(error) => Err(error)
        case None => Ok(Endpoint(host, port))
  }

  function MakeWith(t: Text, host: string, port: Result<int, string>): Parsed {
    if port.Ok? then Make(t, host, port.value) else Err(port.error)
  }

  function ParseBracketed(t: Text, s: string): Parsed
    requires s != "" && s[0] == '['
  {
    var close := Find(s, ']');
    if close < 0 then Err("Invalid IPv6 bracket syntax")
    else
      var host, rest := s[1..close], s[close + 1..];
      if host == "" || rest == "" || rest[0] != ':' || |rest| == 1 || ':' in rest[1..] then Err("Invalid IPv6 endpoint")
      else if t.isV4(host) || !t.isV6(host) then Err("Malformed IPv6 address")
      else MakeWith(t, host, ParsePort(rest[1..]))
  }

  function Parse(t: Text, s: string, defaultPort: int): Parsed {
    if s == "" then Err("Address is required")
    else if HasSpace(t, s) then Err("Address must not contain whitespace")
    else if s[0] == '[' then ParseBracketed(t, s)
    else if '[' in s || ']' in s then Err("Invalid bracket syntax")
    else if Count(s, ':') == 0 then Make(t, s, defaultPort)
    else if Count(s, ':') == 1 then
      var k := (CountIsZero(s, ':'); Find(s, ':'));
      MakeWith(t, s[..k], ParsePort(s[k + 1..]))
    else if t.isV4(s) || !t.isV6(s) then Err("Malformed IPv6 address")
    else Make(t, s, defaultPort)
  }

  function Shown(e: Endpoint): string {
    (if ':' in e.host then "[" + e.host + "]" else e.host) + ":" + Print(e.port)
  }

  predicate Valid(t: Text, e: Endpoint) { Make(t, e.host, e.port) == Ok(e) }

  // ---- proofs

  lemma {:induction false} CountIsZero(s: string, c: char)
    ensures Count(s, c) == 0 <==> c !in s
  {
    if s != "" { CountIsZero(s[1..], c); }
  }

  lemma {:induction false} CountOfConcat(a: string, b: string, c: char)
    ensures Count(a + b, c) == Count(a, c) + Count(b, c)
  {
    if a == "" {
      assert a + b == b;
    } else {
      assert (a + b)[1..] == a[1..] + b;
      CountOfConcat(a[1..], b, c);
    }
  }

  lemma FindAfter(a: string, c: char, b: string)
    requires c !in a
    ensures Find(a + [c] + b, c) == |a|
  {
    var s, k := a + [c] + b, Find(a + [c] + b, c);
    assert s[|a|] == c && forall i :: 0 <= i < |a| ==> s[i] == a[i];
  }

  lemma {:induction false} LabelsHaveNoMarks(name: string)
    requires AllLabels(Split(name, '.'))
    ensures forall i :: 0 <= i < |name| ==> !Marks(name[i])
    decreases |name|
  {
    var k, labels := Find(name, '.'), Split(name, '.');
    assert IsLabel(labels[0]);
    if k >= 0 {
      assert labels[1..] == Split(name[k + 1..], '.');
      assert forall j :: 0 <= j < |labels| - 1 ==> labels[1..][j] == labels[j + 1];
      LabelsHaveNoMarks(name[k + 1..]);
      assert name == labels[0] + ['.'] + name[k + 1..];
    }
  }

  lemma NameHasNoMarks(t: Text, host: string)
    requires host != "" && !t.isV4(host) && !t.isV6(host) && ValidateHost(t, host).None?
    ensures forall i :: 0 <= i < |host| ==> !Marks(host[i])
  {
    var n := |host| - 1;
    if host[n] == '.' {
      LabelsHaveNoMarks(host[..n]);
      forall i | 0 <= i < |host| ensures !Marks(host[i]) {
        assert i < n ==> host[..n][i] == host[i];
      }
    } else {
      LabelsHaveNoMarks(host);
    }
  }

  /** A colon in a valid host means IPv6; brackets occur only there. */
  lemma ColonMeansV6(t: Text, host: string)
    requires Lawful(t) && host != "" && ValidateHost(t, host).None?
    ensures ':' in host <==> t.isV6(host)
    ensures ':' !in host ==> '[' !in host && ']' !in host
  {
    if !t.isV4(host) && !t.isV6(host) { NameHasNoMarks(t, host); }
  }

  lemma PrintedPort(port: int)
    requires 1 <= port <= 65535
    ensures ParsePort(Print(port)) == Ok(port)
  {
    ReadOfPrint(port);
  }

  lemma ShownHasNoSpace(t: Text, e: Endpoint)
    requires Lawful(t) && Valid(t, e)
    ensures !HasSpace(t, Shown(e))
  {
    var s, p := Shown(e), Print(e.port);
    forall i | 0 <= i < |s| ensures !t.isSpace(s[i]) {
      assert s[i] in e.host || Marks(s[i]) || IsDigit(s[i]);
    }
  }

  lemma PlainShape(host: string, p: string)
    requires host != "" && ':' !in host && '[' !in host && ']' !in host && AllDigits(p)
    ensures var s := host + ":" + p;
            && s[0] != '[' && '[' !in s && ']' !in s && Count(s, ':') == 1 && Find(s, ':') == |host|
            && s[..|host|] == host && s[|host| + 1..] == p
  {
    var s := host + ":" + p;
    assert s[0] == host[0];
    CountOfConcat(host + ":", p, ':');
    CountOfConcat(host, ":", ':');
    CountIsZero(host, ':');
    CountIsZero(p, ':');
    FindAfter(host, ':', p);
    assert s == host + [':'] + p;
  }

  lemma PlainRoundTrip(t: Text, e: Endpoint, defaultPort: int)
    requires Lawful(t) && Valid(t, e) && ':' !in e.host
    ensures Parse(t, Shown(e), defaultPort) == Ok(e)
  {
    ColonMeansV6(t, e.host);
    ShownHasNoSpace(t, e);
    PrintedPort(e.port);
    PlainShape(e.host, Print(e.port));
  }

  lemma BracketedShape(host: string, p: string)
    requires host != "" && AllDigits(p) && p != ""
    ensures var s := "[" + host + "]" + ":" + p;
            if ']' !in host then
              && Find(s, ']') == |host| + 1
              && s[1..|host| + 1] == host
              && s[|host| + 2..] == ":" + p
              && (":" + p)[1..] == p
            else 1 <= Find(s, ']') <= |host|
  {
    var s := "[" + host + "]" + ":" + p;
    if ']' !in host {
      FindAfter("[" + host, ']', ":" + p);
      assert s == ("[" + host) + [']'] + (":" + p);
    } else {
      var k := Find(host, ']');
      assert s[k + 1] == ']' && s[0] != ']';
      FindAfter("[" + host[..k], ']', host[k + 1..] + "]:" + p);
      assert s == ("[" + host[..k]) + [']'] + (host[k + 1..] + "]:" + p);
    }
  }

  lemma BracketedRoundTrip(t: Text, e: Endpoint, defaultPort: int)
    requires Lawful(t) && Valid(t, e) && ':' in e.host
    ensures Parse(t, Shown(e), defaultPort) == Ok(e) <==> ']' !in e.host
  {
    var s, p := Shown(e), Print(e.port);
    ColonMeansV6(t, e.host);
    ShownHasNoSpace(t, e);
    PrintedPort(e.port);
    BracketedShape(e.host, p);
    assert s == "[" + e.host + "]" + ":" + p && s[0] == '[';
    BracketedParse(t, e, p);
  }

  lemma BracketedHost(t: Text, s: string)
    requires s != "" && s[0] == '[' && ParseBracketed(t, s).Ok?
    ensures Find(s, ']') >= 1 && ParseBracketed(t, s).value.host == s[1..Find(s, ']')]
  {
  }

  lemma BracketedParse(t: Text, e: Endpoint, p: string)
    requires Lawful(t) && Valid(t, e) && t.isV6(e.host) && ':' in e.host && AllDigits(p) && ParsePort(p) == Ok(e.port)
    ensures var s := "[" + e.host + "]" + ":" + p;
            ParseBracketed(t, s) == Ok(e) <==> ']' !in e.host
  {
    var s := "[" + e.host + "]" + ":" + p;
    BracketedShape(e.host, p);
    if ']' in e.host {
      if ParseBracketed(t, s).Ok? {
        BracketedHost(t, s);
        assert |ParseBracketed(t, s).value.host| < |e.host|;
      }
    } else {
      BracketedAccepts(t, e, s, p);
    }
  }

  lemma BracketedAccepts(t: Text, e: Endpoint, s: string, p: string)
    requires Lawful(t) && Valid(t, e) && t.isV6(e.host) && ':' in e.host && AllDigits(p) && ParsePort(p) == Ok(e.port)
    requires s != "" && s[0] == '[' && |s| > |e.host| + 2
    requires Find(s, ']') == |e.host| + 1 && s[1..|e.host| + 1] == e.host && s[|e.host| + 2..] == ":" + p
    requires (":" + p)[1..] == p
    ensures ParseBracketed(t, s) == Ok(e)
  {
    assert !t.isV4(e.host) by {
      var i :| 0 <= i < |e.host| && e.host[i] == ':';
    }
    assert ':' !in p;
  }

  /** A valid endpoint survives printing exactly when its host holds no closing bracket (an IPv6 zone
      may), whatever default port the reader uses. */
  lemma PrintThenParse(t: Text, e: Endpoint, defaultPort: int)
    requires Lawful(t) && Valid(t, e)
    ensures Parse(t, Shown(e), defaultPort) == Ok(e) <==> ']' !in e.host
  {
    if ':' in e.host {
      BracketedRoundTrip(t, e, defaultPort);
    } else {
      ColonMeansV6(t, e.host);
      PlainRoundTrip(t, e, defaultPort);
    }
  }

  // ---- valid endpoints and the texts that name them

  function Joined(labels: seq<string>): string
    requires labels != []
  {
    if |labels| == 1 then labels[0] else labels[0] + "." + Joined(labels[1..])
  }

  lemma JoinedOne(word: string)
    ensures Joined([word]) == word
  {
  }

  lemma JoinedMore(word: string, rest: seq<string>)
    requires rest != []
    ensures Joined([word] + rest) == word + "." + Joined(rest)
  {
    assert ([word] + rest)[1..] == rest;
  }

  /** Splitting at the first dot, if there is one. */
  lemma SplitOnce(s: string)
    ensures var k := Find(s, '.');
            if k < 0 then Split(s, '.') == [s] else Split(s, '.') == [s[..k]] + Split(s[k + 1..], '.')
  {
  }

  lemma {:induction false} JoinedOfSplit(s: string)
    ensures Split(s, '.') != [] && Joined(Split(s, '.')) == s
    decreases |s|
  {
    var k := Find(s, '.');
    SplitOnce(s);
    if k < 0 {
      JoinedOne(s);
    } else {
      var rest := s[k + 1..];
      JoinedOfSplit(rest);
      JoinedMore(s[..k], Split(rest, '.'));
      assert s == s[..k] + "." + rest;
    }
  }

  lemma {:induction false} SplitOfJoined(labels: seq<string>)
    requires labels != [] && AllLabels(labels)
    ensures Split(Joined(labels), '.') == labels
    decreases |labels|
  {
    var word, s := labels[0], Joined(labels);
    assert IsLabel(word) && '.' !in word;
    SplitOnce(s);
    if |labels| == 1 {
      assert labels == [word];
      JoinedOne(word);
    } else {
      var rest := labels[1..];
      assert forall i :: 0 <= i < |rest| ==> rest[i] == labels[i + 1];
      SplitOfJoined(rest);
      assert labels == [word] + rest;
      JoinedMore(word, rest);
      FindAfter(word, '.', Joined(rest));
      assert s == word + ['.'] + Joined(rest);
      assert s[..|word|] == word && s[|word| + 1..] == Joined(rest);
    }
  }

  /** Labels joined by dots, perhaps with a dot at the end. */
  ghost predicate IsHostName(host: string) {
    exists labels: seq<string> :: labels != [] && AllLabels(labels) &&
                                  (host == Joined(labels) || host == Joined(labels) + ".")
  }

  lemma {:induction false} JoinedEnds(labels: seq<string>)
    requires labels != [] && AllLabels(labels)
    ensures Joined(labels) != "" && Joined(labels)[|Joined(labels)| - 1] != '.'
    decreases |labels|
  {
    assert IsLabel(labels[0]);
    if |labels| > 1 {
      var rest := labels[1..];
      assert forall i :: 0 <= i < |rest| ==> rest[i] == labels[i + 1];
      JoinedEnds(rest);
      assert Joined(labels)[|Joined(labels)| - 1] == Joined(rest)[|Joined(rest)| - 1];
    }
  }

  lemma HostNameIsExact(host: string)
    requires host != ""
    ensures var candidate := if host[|host| - 1] == '.' then host[..|host| - 1] else host;
            candidate != "" && AllLabels(Split(candidate, '.')) <==> IsHostName(host)
  {
    var candidate := if host[|host| - 1] == '.' then host[..|host| - 1] else host;
    JoinedOfSplit(candidate);
    if IsHostName(host) {
      var labels: seq<string> :| labels != [] && AllLabels(labels)
                                 && (host == Joined(labels) || host == Joined(labels) + ".");
      JoinedEnds(labels);
      SplitOfJoined(labels);
      assert candidate == Joined(labels);
    } else {
      var labels := Split(candidate, '.');
      assert host == Joined(labels) || host == Joined(labels) + ".";
    }
  }

  /** Digits and dots that are no address, which are refused even where they would make a host name. */
  predicate LooksLikeV4(t: Text, host: string) { '.' in host && AllDecimal(t, Without(host, '.')) }

  /** What a valid endpoint is: a real port, a host of bounded length without white space that is an IP
      address or else a host name, with no colon, that does not look like an IPv4 address. */
  lemma ValidIsExact(t: Text, e: Endpoint)
    ensures Valid(t, e) <==>
              && 1 <= e.port <= 65535 && 1 <= |e.host| <= 253 && !HasSpace(t, e.host)
              && (t.isV4(e.host) || t.isV6(e.host)
                  || (':' !in e.host && !LooksLikeV4(t, e.host) && IsHostName(e.host)))
  {
    if e.host != "" { HostNameIsExact(e.host); }
  }

  /** The text is this host alone, and the port is the default. */
  predicate BareText(t: Text, s: string, e: Endpoint, defaultPort: int) {
    s == e.host && e.port == defaultPort && (':' in s ==> Count(s, ':') > 1 && t.isV6(s) && !t.isV4(s))
  }

  /** Host, colon, port, with no other colon. */
  ghost predicate PortedText(s: string, e: Endpoint) {
    exists p :: p != "" && AllDigits(p) && Read(p) == e.port && s == e.host + ":" + p && ':' !in e.host
  }

  /** An IPv6 address in brackets, colon, port. */
  ghost predicate BracketedText(t: Text, s: string, e: Endpoint) {
    && t.isV6(e.host) && !t.isV4(e.host) && ']' !in e.host
    && exists p :: p != "" && AllDigits(p) && Read(p) == e.port && s == "[" + e.host + "]:" + p
  }

  /** The texts that name an endpoint; brackets occur only around an IPv6 address with a port. */
  ghost predicate Names(t: Text, s: string, e: Endpoint, defaultPort: int) {
    && s != "" && !HasSpace(t, s) && Valid(t, e)
    && (if s[0] == '[' then BracketedText(t, s, e)
        else '[' !in s && ']' !in s && (BareText(t, s, e, defaultPort) || PortedText(s, e)))
  }

  /** parse accepts a text as an endpoint exactly when it names it. */
  lemma ParseIsExact(t: Text, s: string, e: Endpoint, defaultPort: int)
    requires Lawful(t)
    ensures Parse(t, s, defaultPort) == Ok(e) <==> Names(t, s, e, defaultPort)
  {
    if Parse(t, s, defaultPort) == Ok(e) { ParsedIsNamed(t, s, e, defaultPort); }
    if Names(t, s, e, defaultPort) { NamedIsParsed(t, s, e, defaultPort); }
  }

  lemma ParsedBracketed(t: Text, s: string, e: Endpoint)
    requires s != "" && s[0] == '[' && ParseBracketed(t, s) == Ok(e)
    ensures BracketedText(t, s, e)
  {
    var k := Find(s, ']');
    var p := s[k + 1..][1..];
    assert s == "[" + s[1..k] + "]:" + p;
    assert e.host == s[1..k] && ParsePort(p) == Ok(e.port);
  }

  lemma ParsedPorted(t: Text, s: string, e: Endpoint, defaultPort: int)
    requires s != "" && s[0] != '[' && Count(s, ':') == 1 && Parse(t, s, defaultPort) == Ok(e)
    ensures PortedText(s, e)
  {
    CountIsZero(s, ':');
    var k := Find(s, ':');
    var p := s[k + 1..];
    assert s == s[..k] + ":" + p;
    assert e.host == s[..k] && ParsePort(p) == Ok(e.port);
  }

  lemma ParsedIsNamed(t: Text, s: string, e: Endpoint, defaultPort: int)
    requires Parse(t, s, defaultPort) == Ok(e)
    ensures Names(t, s, e, defaultPort)
  {
    ParsedIsValid(t, s, defaultPort);
    CountIsZero(s, ':');
    if s[0] == '[' { ParsedBracketed(t, s, e); }
    else if Count(s, ':') == 1 { ParsedPorted(t, s, e, defaultPort); }
  }

  lemma PortedIsParsed(t: Text, s: string, e: Endpoint, defaultPort: int)
    requires Names(t, s, e, defaultPort) && s[0] != '[' && PortedText(s, e)
    ensures Parse(t, s, defaultPort) == Ok(e)
  {
    var p :| p != "" && AllDigits(p) && Read(p) == e.port && s == e.host + ":" + p && ':' !in e.host;
    PlainShape(e.host, p);
    assert ParsePort(p) == Ok(e.port);
  }

  lemma BracketedIsParsed(t: Text, s: string, e: Endpoint, defaultPort: int)
    requires Lawful(t) && Names(t, s, e, defaultPort) && s[0] == '['
    ensures Parse(t, s, defaultPort) == Ok(e)
  {
    var p :| p != "" && AllDigits(p) && Read(p) == e.port && s == "[" + e.host + "]:" + p;
    assert "[" + e.host + "]" + ":" + p == s;
    BracketedParse(t, e, p);
  }

  lemma NamedIsParsed(t: Text, s: string, e: Endpoint, defaultPort: int)
    requires Lawful(t) && Names(t, s, e, defaultPort)
    ensures Parse(t, s, defaultPort) == Ok(e)
  {
    CountIsZero(s, ':');
    if s[0] == '[' { BracketedIsParsed(t, s, e, defaultPort); }
    else if PortedText(s, e) { PortedIsParsed(t, s, e, defaultPort); }
  }

  const ZONED := Endpoint("fe80::1%a]b", 5000)

  /** A host that is valid wherever zones may hold brackets, and that printing loses. */
  lemma BracketInZone(t: Text, defaultPort: int)
    requires Lawful(t) && t.isV6(ZONED.host)
    ensures Valid(t, ZONED) && Parse(t, Shown(ZONED), defaultPort) != Ok(ZONED)
  {
    forall i | 0 <= i < |ZONED.host| ensures !t.isSpace(ZONED.host[i]) {
      var c := ZONED.host[i];
      assert IsAlphanumeric(c) || Marks(c) || c == '%';
    }
    assert Valid(t, ZONED);
    assert ZONED.host[9] == ']';
    PrintThenParse(t, ZONED, defaultPort);
  }

  /** Whatever parse accepts is valid and free of closing brackets. */
  lemma ParsedIsValid(t: Text, s: string, defaultPort: int)
    requires Parse(t, s, defaultPort).Ok?
    ensures Valid(t, Parse(t, s, defaultPort).value) && ']' !in Parse(t, s, defaultPort).value.host
  {
    var e := Parse(t, s, defaultPort).value;
    if s[0] == '[' {
      var k := Find(s, ']');
      assert e.host == s[1..k] && forall c :: c in s[1..k] ==> c in s[..k];
    }
  }

  /** parse(str(parse(s))) == parse(s), for every accepted string and any two default ports. */
  lemma ParsePrintParse(t: Text, s: string, port1: int, port2: int)
    requires Lawful(t) && Parse(t, s, port1).Ok?
    ensures Parse(t, Shown(Parse(t, s, port1).value), port2) == Parse(t, s, port1)
  {
    ParsedIsValid(t, s, port1);
    PrintThenParse(t, Parse(t, s, port1).value, port2);
  }
}
