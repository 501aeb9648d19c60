/** http_url_parse_s of http_url.c: split an HTTP URL (section 3.3 of RFC 1738, as adapted in
    http_url.h) into protocol, host, port, path and search. */
module HttpUrls {

  datatype Status =
    | PROTO_UNRECOGNIZED | HOST_UNRECOGNIZED | PORT_UNRECOGNIZED | PATH_UNRECOGNIZED
    | SEARCH_UNRECOGNIZED | UNRECOGNIZED | RECOGNIZED

  datatype HttpUrl = HttpUrl(protocol: string, host: string, port: string, path: string, search: string)

  const BLANK := HttpUrl("", "", "", "", "")

  // Character classes.

  predicate IsDigit(c: char) { '0' <= c <= '9' }

  predicate IsAlnum(c: char) { IsDigit(c) || 'a' <= c <= 'z' || 'A' <= c <= 'Z' }

  predicate IsHostChar(c: char) { IsAlnum(c) || c == '.' || c == '-' }

  predicate IsPathChar(c: char) {
    || IsAlnum(c) || c == '/' || c == ';' || c == ':' || c == '@' || c == '%'
    || c == '&' || c == '=' || c == '_' || c == '.' || c == '-' || c == '+'
  }

  /** The same classes written out. */
  const DIGITS := "0123456789"
  const LOWER := "abcdefghijklmnopqrstuvwxyz"
  const UPPER := "ABCDEFGHIJKLMNOPQRSTUVWXYZ"
  const ALNUM := DIGITS + LOWER + UPPER
  const HOST_CHARS := ALNUM + ".-"
  const PATH_CHARS := ALNUM + "/;:@%&=_.-+"

  predicate AllIn(s: string, chars: string) { forall i | 0 <= i < |s| :: s[i] in chars }

  lemma DigitIff(c: char)
    ensures IsDigit(c) <==> c in DIGITS
  {
  }

  lemma LetterIff(c: char)
    ensures 'a' <= c <= 'z' <==> c in LOWER
    ensures 'A' <= c <= 'Z' <==> c in UPPER
  {
  }

  lemma AlnumIff(c: char)
    ensures IsAlnum(c) <==> c in ALNUM
  {
    DigitIff(c);
    LetterIff(c);
  }

  lemma HostIff(c: char)
    ensures IsHostChar(c) <==> c in HOST_CHARS
  {
    AlnumIff(c);
  }

  lemma PathIff(c: char)
    ensures IsPathChar(c) <==> c in PATH_CHARS
  {
    AlnumIff(c);
  }

  predicate ProtocolOk(s: string) { forall i | 0 <= i < |s| :: IsAlnum(s[i]) }

  predicate HostOk(s: string) { forall i | 0 <= i < |s| :: IsHostChar(s[i]) }

  predicate PortOk(s: string) { forall i | 0 <= i < |s| :: IsDigit(s[i]) }

  predicate PathOk(s: string) { forall i | 0 <= i < |s| :: IsPathChar(s[i]) }

  lemma ProtocolCharsIff(s: string)
    ensures ProtocolOk(s) <==> AllIn(s, ALNUM)
  {
    forall i | 0 <= i < |s|
      ensures IsAlnum(s[i]) <==> s[i] in ALNUM
    {
      AlnumIff(s[i]);
    }
  }

  lemma HostCharsIff(s: string)
    ensures HostOk(s) <==> AllIn(s, HOST_CHARS)
  {
    forall i | 0 <= i < |s|
      ensures IsHostChar(s[i]) <==> s[i] in HOST_CHARS
    {
      HostIff(s[i]);
    }
  }

  lemma PortCharsIff(s: string)
    ensures PortOk(s) <==> AllIn(s, DIGITS)
  {
    forall i | 0 <= i < |s|
      ensures IsDigit(s[i]) <==> s[i] in DIGITS
    {
      DigitIff(s[i]);
    }
  }

  lemma PathCharsIff(s: string)
    ensures PathOk(s) <==> AllIn(s, PATH_CHARS)
  {
    forall i | 0 <= i < |s|
      ensures IsPathChar(s[i]) <==> s[i] in PATH_CHARS
    {
      PathIff(s[i]);
    }
  }

  method CheckProtocol(protocol: string) returns (ok: bool)
    ensures ok <==> AllIn(protocol, ALNUM)
    ensures ok <==> ProtocolOk(protocol)
  {
    ProtocolCharsIff(protocol);
    for i := 0 to |protocol|
      invariant forall j | 0 <= j < i :: IsAlnum(protocol[j])
    {
      if !IsAlnum(protocol[i]) {
        return false;
      }
    }
    return true;
  }

  method CheckHost(host: string) returns (ok: bool)
    ensures ok <==> AllIn(host, HOST_CHARS)
    ensures ok <==> HostOk(host)
  {
    HostCharsIff(host);
    for i := 0 to |host|
      invariant forall j | 0 <= j < i :: IsHostChar(host[j])
    {
      if !IsHostChar(host[i]) {
        return false;
      }
    }
    return true;
  }

  method CheckPort(port: string) returns (ok: bool)
    ensures ok <==> AllIn(port, DIGITS)
    ensures ok <==> PortOk(port)
  {
    PortCharsIff(port);
    for i := 0 to |port|
      invariant forall j | 0 <= j < i :: IsDigit(port[j])
    {
      if !IsDigit(port[i]) {
        return false;
      }
    }
    return true;
  }

  method CheckPath(path: string) returns (ok: bool)
    ensures ok <==> AllIn(path, PATH_CHARS)
    ensures ok <==> PathOk(path)
  {
    PathCharsIff(path);
    for i := 0 to |path|
      invariant forall j | 0 <= j < i :: IsPathChar(path[j])
    {
      if !IsPathChar(path[i]) {
        return false;
      }
    }
    return true;
  }

  // strchr and strstr: the first position, or the length where the source gets NULL.

  function StrChr(s: string, c: char): (i: nat)
    ensures i <= |s| && (forall j | 0 <= j < i :: s[j] != c) && (i < |s| ==> s[i] == c)
  {
    StrChrFrom(s, c, 0)
  }

  function StrChrFrom(s: string, c: char, from: nat): (i: nat)
    requires from <= |s|
    ensures from <= i <= |s| && (forall j | from <= j < i :: s[j] != c) && (i < |s| ==> s[i] == c)
    decreases |s| - from
  {
    if from == |s| || s[from] == c then from else StrChrFrom(s, c, from + 1)
  }

  const SEP := "://"

  predicate SepAt(s: string, i: nat) { i + 3 <= |s| && s[i] == SEP[0] && s[i + 1] == SEP[1] && s[i + 2] == SEP[2] }

  function StrSep(s: string): (i: nat)
    ensures i <= |s| && (forall j | 0 <= j < i :: !SepAt(s, j)) && (i < |s| ==> SepAt(s, i))
  {
    StrSepFrom(s, 0)
  }

  function StrSepFrom(s: string, from: nat): (i: nat)
    requires from <= |s|
    ensures from <= i <= |s| && (forall j | from <= j < i :: !SepAt(s, j)) && (i < |s| ==> SepAt(s, i))
    decreases |s| - from
  {
    if from == |s| || SepAt(s, from) then from else StrSepFrom(s, from + 1)
  }

  /** Which separators the parser found. */
  datatype Seps = Seps(proto: bool, port: bool, search: bool)

  datatype Parsed = Parsed(status: Status, url: HttpUrl, seps: Seps)

  function Parse(url: string): Parsed { ParseAt(url, StrSep(url)) }

  /** p is where the protocol ends. */
  function ParseAt(url: string, p: nat): Parsed
    requires p < |url| ==> SepAt(url, p)
  {
    if p < |url| then
      if ProtocolOk(url[..p]) then ParseHost(url[p + 3..], BLANK.(protocol := url[..p]), Seps(true, false, false))
      else Parsed(PROTO_UNRECOGNIZED, BLANK, Seps(true, false, false))
    else ParseHost(url, BLANK, Seps(false, false, false))
  }

  function ParseHost(r: string, u: HttpUrl, k: Seps): Parsed {
    var c := StrChr(r, ':');
    if c < |r| then
      if HostOk(r[..c]) then ParsePort(r[c + 1..], u.(host := r[..c]), k)
      else Parsed(HOST_UNRECOGNIZED, u, k)
    else ParseNoPort(r, u, k)
  }

  function ParseNoPort(r: string, u: HttpUrl, k: Seps): Parsed {
    var s := StrChr(r, '/');
    if HostOk(r[..s]) then ParsePath(r[s..], u.(host := r[..s]), k)
    else Parsed(HOST_UNRECOGNIZED, u, k)
  }

  function ParsePort(q: string, u: HttpUrl, k: Seps): Parsed {
    var s := StrChr(q, '/');
    if PortOk(q[..s]) then ParsePath(q[s..], u.(port := q[..s]), k.(port := true))
    else Parsed(PORT_UNRECOGNIZED, u, k)
  }

  function ParsePath(r: string, u: HttpUrl, k: Seps): Parsed {
    var s := StrChr(r, '?');
    if !PathOk(r[..s]) then Parsed(PATH_UNRECOGNIZED, u, k)
    else if s < |r| then Parsed(RECOGNIZED, u.(path := r[..s], search := r[s + 1..]), k.(search := true))
    else Parsed(RECOGNIZED, u.(path := r), k)
  }

  /** http_url_parse_s. The cursor `cstr` is a pointer into the string, so it stands for the
      string from there on; n is the distance to the separator searched for. */
  method ParseS(url: string) returns (status: Status, httpUrl: HttpUrl)
    ensures status == Parse(url).status && httpUrl == Parse(url).url
  {
    httpUrl := BLANK;
    var n := StrSep(url);
    if n < |url| {
      status, httpUrl := ParseProtocol(url, n, httpUrl);
    } else {
      status, httpUrl := ParseAuthority(url, httpUrl, Seps(false, false, false));
    }
  }

  /** http_url_parse_s on a string with a protocol, which ends at n. */
  method ParseProtocol(url: string, n: nat, u: HttpUrl) returns (status: Status, httpUrl: HttpUrl)
    requires n < |url| && SepAt(url, n) && u == BLANK
    ensures status == ParseAt(url, n).status && httpUrl == ParseAt(url, n).url
  {
    httpUrl := u;
    var ok := CheckProtocol(url[..n]);
    if !ok {
      return PROTO_UNRECOGNIZED, httpUrl;
    }
    httpUrl := httpUrl.(protocol := url[..n]);
    var cstr := url[n + 3..];
    status, httpUrl := ParseAuthority(cstr, httpUrl, Seps(true, false, false));
  }

  /** The part of http_url_parse_s behind the protocol: host and port, then the rest. */
  method ParseAuthority(r: string, u: HttpUrl, ghost k: Seps) returns (status: Status, httpUrl: HttpUrl)
    ensures status == ParseHost(r, u, k).status && httpUrl == ParseHost(r, u, k).url
  {
    httpUrl := u;
    var cstr := r;
    ghost var l := k;
    var n := StrChr(cstr, ':');
    if n < |cstr| {
      var ok := CheckHost(cstr[..n]);
      if !ok {
        return HOST_UNRECOGNIZED, httpUrl;
      }
      httpUrl := httpUrl.(host := cstr[..n]);
      cstr := cstr[n + 1..];
      n := StrChr(cstr, '/');
      ok := CheckPort(cstr[..n]);
      if !ok {
        return PORT_UNRECOGNIZED, httpUrl;
      }
      httpUrl := httpUrl.(port := cstr[..n]);
      l := l.(port := true);
      cstr := cstr[n..];
    } else {
      n := StrChr(cstr, '/');
      var ok := CheckHost(cstr[..n]);
      if !ok {
        return HOST_UNRECOGNIZED, httpUrl;
      }
      httpUrl := httpUrl.(host := cstr[..n]);
      cstr := cstr[n..];
    }
    status, httpUrl := ParseTail(cstr, httpUrl, l);
  }

  /** The last part of http_url_parse_s: path and search. */
  method ParseTail(cstr: string, u: HttpUrl, ghost k: Seps) returns (status: Status, httpUrl: HttpUrl)
    ensures status == ParsePath(cstr, u, k).status && httpUrl == ParsePath(cstr, u, k).url
  {
    httpUrl := u;
    var n := StrChr(cstr, '?');
    var ok := CheckPath(cstr[..n]);
    if !ok {
      return PATH_UNRECOGNIZED, httpUrl;
    }
    assert cstr[..|cstr|] == cstr;
    httpUrl := httpUrl.(path := cstr[..n]);
    if n < |cstr| {
      httpUrl := httpUrl.(search := cstr[n + 1..]);
    }
    return RECOGNIZED, httpUrl;
  }

  // Printing.

  function Protocol(u: HttpUrl, k: Seps): string { if k.proto then u.protocol + SEP else "" }

  function Port(u: HttpUrl, k: Seps): string { if k.port then ":" + u.port else "" }

  function Search(u: HttpUrl, k: Seps): string { if k.search then "?" + u.search else "" }

  function Tail(u: HttpUrl, k: Seps): string { u.path + Search(u, k) }

  function Authority(u: HttpUrl, k: Seps): string { u.host + (Port(u, k) + Tail(u, k)) }

  /** The fields joined with the given separators. */
  function Print(u: HttpUrl, k: Seps): string { Protocol(u, k) + Authority(u, k) }

  /** Each part is in its character class, a part without its separator is empty, a path is
      empty or starts with a slash, and a search needs a path. */
  predicate WellFormed(u: HttpUrl, k: Seps) {
    && ProtocolOk(u.protocol) && HostOk(u.host) && PortOk(u.port) && PathOk(u.path)
    && (!k.proto ==> u.protocol == "") && (!k.port ==> u.port == "") && (!k.search ==> u.search == "")
    && (u.path != "" ==> u.path[0] == '/')
    && (k.search ==> u.path != "")
  }

  /** The printed text shows no separator that is not there: without a protocol no "://"
      anywhere, without a port no colon in path or search. */
  predicate Unambiguous(u: HttpUrl, k: Seps) {
    && (!k.proto ==> StrSep(Print(u, k)) == |Print(u, k)|)
    && (!k.port ==> ':' !in u.path && ':' !in u.search)
  }

  // Parse after print.

  /** Splitting at a separator that the first part does not contain. */
  lemma SplitAt(a: string, c: char, b: string)
    requires c !in a
    ensures var r := a + ([c] + b); StrChr(r, c) == |a| < |r| && r[..|a|] == a && r[|a| + 1..] == b
  {
    var r := a + ([c] + b);
    assert r[|a|] == c;
    assert forall j | 0 <= j < |a| :: r[j] == a[j];
  }

  /** Splitting before a tail that starts with the separator, if it is not empty. */
  lemma SplitBefore(a: string, c: char, t: string)
    requires c !in a && (t != "" ==> t[0] == c)
    ensures var r := a + t; StrChr(r, c) == |a| && r[..|a|] == a && r[|a|..] == t
  {
    var r := a + t;
    assert forall j | 0 <= j < |a| :: r[j] == a[j];
    if t != "" {
      assert r[|a|] == c;
    }
  }

  lemma Absent(s: string, c: char)
    requires c !in s
    ensures StrChr(s, c) == |s|
  {
  }

  lemma TailParses(u: HttpUrl, k: Seps, v: HttpUrl, l: Seps)
    requires WellFormed(u, k) && v.search == "" && !l.search
    ensures ParsePath(Tail(u, k), v, l)
         == Parsed(RECOGNIZED, v.(path := u.path, search := u.search), l.(search := k.search))
  {
    if k.search {
      SplitAt(u.path, '?', u.search);
      assert Search(u, k) == ['?'] + u.search;
    } else {
      Absent(u.path, '?');
      assert Tail(u, k) == u.path && u.path[..|u.path|] == u.path;
    }
  }

  lemma PortParses(u: HttpUrl, k: Seps, v: HttpUrl, l: Seps)
    requires WellFormed(u, k) && k.port && v.search == "" && !l.search
    ensures ParsePort(u.port + Tail(u, k), v, l)
         == Parsed(RECOGNIZED, v.(port := u.port, path := u.path, search := u.search),
                   l.(port := true, search := k.search))
  {
    SplitBefore(u.port, '/', Tail(u, k));
    TailParses(u, k, v.(port := u.port), l.(port := true));
  }

  lemma AuthorityWithPort(u: HttpUrl, k: Seps, v: HttpUrl, l: Seps)
    requires WellFormed(u, k) && k.port
    requires v == BLANK.(protocol := v.protocol) && l == Seps(l.proto, false, false)
    ensures ParseHost(Authority(u, k), v, l)
         == Parsed(RECOGNIZED, u.(protocol := v.protocol), Seps(l.proto, true, k.search))
  {
    var q := u.port + Tail(u, k);
    SplitAt(u.host, ':', q);
    assert Port(u, k) + Tail(u, k) == [':'] + q;
    PortParses(u, k, v.(host := u.host), l);
  }

  lemma NoPortParses(u: HttpUrl, k: Seps, v: HttpUrl, l: Seps)
    requires WellFormed(u, k) && v.search == "" && !l.search
    ensures ParseNoPort(u.host + Tail(u, k), v, l)
         == Parsed(RECOGNIZED, v.(host := u.host, path := u.path, search := u.search), l.(search := k.search))
  {
    SplitBefore(u.host, '/', Tail(u, k));
    TailParses(u, k, v.(host := u.host), l);
  }

  lemma AuthorityWithoutPort(u: HttpUrl, k: Seps, v: HttpUrl, l: Seps)
    requires WellFormed(u, k) && !k.port && ':' !in u.path && ':' !in u.search
    requires v == BLANK.(protocol := v.protocol) && l == Seps(l.proto, false, false)
    ensures ParseHost(Authority(u, k), v, l)
         == Parsed(RECOGNIZED, u.(protocol := v.protocol), Seps(l.proto, false, k.search))
  {
    var r := u.host + Tail(u, k);
    assert Authority(u, k) == r;
    Absent(r, ':');
    NoPortParses(u, k, v, l);
  }

  lemma AuthorityParses(u: HttpUrl, k: Seps, v: HttpUrl, l: Seps)
    requires WellFormed(u, k) && (k.port || (':' !in u.path && ':' !in u.search))
    requires v == BLANK.(protocol := v.protocol) && l == Seps(l.proto, false, false)
    ensures ParseHost(Authority(u, k), v, l)
         == Parsed(RECOGNIZED, u.(protocol := v.protocol), Seps(l.proto, k.port, k.search))
  {
    if k.port {
      AuthorityWithPort(u, k, v, l);
    } else {
      AuthorityWithoutPort(u, k, v, l);
    }
  }

  lemma SepAfter(protocol: string, r: string)
    requires ProtocolOk(protocol)
    ensures StrSep(protocol + SEP + r) == |protocol| < |protocol + SEP + r|
  {
    var s, n := protocol + SEP + r, |protocol|;
    assert SepAt(s, n);
    assert forall j | 0 <= j < n :: s[j] == protocol[j];
  }

  lemma StrSepIs(u: HttpUrl, k: Seps)
    requires WellFormed(u, k) && k.proto
    ensures StrSep(Print(u, k)) == |u.protocol|
  {
    SepAfter(u.protocol, Authority(u, k));
  }

  /** Print then parse is the identity on unambiguous fields. */
  lemma PrintParse(u: HttpUrl, k: Seps)
    requires WellFormed(u, k) && Unambiguous(u, k)
    ensures Parse(Print(u, k)) == Parsed(RECOGNIZED, u, k)
  {
    var s := Print(u, k);
    if k.proto {
      StrSepIs(u, k);
      assert s[..|u.protocol|] == u.protocol && s[|u.protocol| + 3..] == Authority(u, k);
      AuthorityParses(u, k, BLANK.(protocol := u.protocol), Seps(true, false, false));
    } else {
      assert s == Authority(u, k);
      AuthorityParses(u, k, BLANK, Seps(false, false, false));
    }
  }

  // Print after parse.

  /** The part of WellFormed about path and search. */
  predicate TailOk(u: HttpUrl, k: Seps) {
    && PathOk(u.path) && (u.path != "" ==> u.path[0] == '/')
    && (!k.search ==> u.search == "") && (k.search ==> u.path != "")
  }

  /** A recognized tail is the path and search it yields. */
  lemma PathIsLossless(r: string, u: HttpUrl, k: Seps)
    requires ParsePath(r, u, k).status == RECOGNIZED && u.search == "" && !k.search
    requires r != "" ==> r[0] == '/'
    ensures var p := ParsePath(r, u, k);
            && Tail(p.url, p.seps) == r && TailOk(p.url, p.seps)
            && p.seps == k.(search := p.seps.search) && p.url == u.(path := p.url.path, search := p.url.search)
  {
    var s := StrChr(r, '?');
    if s < |r| {
      assert r == r[..s] + ("?" + r[s + 1..]);
    } else {
      assert r[..s] == r && r + "" == r;
    }
  }

  lemma PortIsLossless(q: string, u: HttpUrl, k: Seps)
    requires ParsePort(q, u, k).status == RECOGNIZED && u.search == "" && !k.search
    ensures var p := ParsePort(q, u, k);
            && p.url.port + Tail(p.url, p.seps) == q && PortOk(p.url.port) && TailOk(p.url, p.seps)
            && p.seps == k.(port := true, search := p.seps.search)
            && p.url == u.(port := p.url.port, path := p.url.path, search := p.url.search)
  {
    var s := StrChr(q, '/');
    PathIsLossless(q[s..], u.(port := q[..s]), k.(port := true));
    assert q == q[..s] + q[s..];
  }

  /** What the fields of an authority r say about it. */
  ghost predicate AuthorityOk(r: string, p: Parsed, v: HttpUrl, l: Seps) {
    && Authority(p.url, p.seps) == r && p.url.protocol == v.protocol && p.seps.proto == l.proto
    && HostOk(p.url.host) && PortOk(p.url.port) && TailOk(p.url, p.seps)
    && (!p.seps.port ==> p.url.port == "" && ':' !in r)
  }

  /** A recognized authority is the host, port, path and search it yields. */
  lemma HostIsLossless(r: string, v: HttpUrl, l: Seps)
    requires ParseHost(r, v, l).status == RECOGNIZED
    requires v == BLANK.(protocol := v.protocol) && l == Seps(l.proto, false, false)
    ensures AuthorityOk(r, ParseHost(r, v, l), v, l)
  {
    var c := StrChr(r, ':');
    if c < |r| {
      HostWithPort(r, c, v, l);
    } else {
      NoPortIsLossless(r, v, l);
      Prepend(Tail(ParseNoPort(r, v, l).url, ParseNoPort(r, v, l).seps));
    }
  }

  lemma Prepend(t: string)
    ensures "" + t == t
  {
  }

  lemma HostWithPort(r: string, c: nat, v: HttpUrl, l: Seps)
    requires c == StrChr(r, ':') < |r| && HostOk(r[..c])
    requires var p := ParsePort(r[c + 1..], v.(host := r[..c]), l); p.status == RECOGNIZED
    requires v == BLANK.(protocol := v.protocol) && l == Seps(l.proto, false, false)
    ensures AuthorityOk(r, ParsePort(r[c + 1..], v.(host := r[..c]), l), v, l)
  {
    PortIsLossless(r[c + 1..], v.(host := r[..c]), l);
    JoinPort(r, c, ParsePort(r[c + 1..], v.(host := r[..c]), l));
  }

  lemma NoPortIsLossless(r: string, u: HttpUrl, k: Seps)
    requires ParseNoPort(r, u, k).status == RECOGNIZED && u.search == "" && !k.search
    ensures var p := ParseNoPort(r, u, k);
            && p.url.host + Tail(p.url, p.seps) == r && HostOk(p.url.host) && TailOk(p.url, p.seps)
            && p.seps == k.(search := p.seps.search)
            && p.url == u.(host := p.url.host, path := p.url.path, search := p.url.search)
  {
    var s := StrChr(r, '/');
    PathIsLossless(r[s..], u.(host := r[..s]), k);
    assert r == r[..s] + r[s..];
  }

  lemma JoinPort(r: string, c: nat, p: Parsed)
    requires c < |r| && r[c] == ':' && p.url.host == r[..c] && p.seps.port
    requires p.url.port + Tail(p.url, p.seps) == r[c + 1..]
    ensures Authority(p.url, p.seps) == r
  {
    var t := Tail(p.url, p.seps);
    assert ":" + p.url.port + t == ":" + (p.url.port + t);
    assert r == r[..c] + (":" + r[c + 1..]);
  }

  /** What the fields of a whole URL say about it. */
  ghost predicate UrlOk(url: string, p: Parsed) {
    && WellFormed(p.url, p.seps) && Print(p.url, p.seps) == url
    && (!p.seps.port ==> ':' !in Authority(p.url, p.seps))
  }

  lemma WithProtocol(url: string, n: nat, p: Parsed)
    requires n < |url| && SepAt(url, n) && ProtocolOk(url[..n])
    requires AuthorityOk(url[n + 3..], p, BLANK.(protocol := url[..n]), Seps(true, false, false))
    ensures UrlOk(url, p)
  {
    JoinProtocol(url, n, p);
  }

  lemma WithoutProtocol(url: string, p: Parsed)
    requires AuthorityOk(url, p, BLANK, Seps(false, false, false))
    ensures UrlOk(url, p)
  {
    Prepend(url);
  }

  lemma UrlIsLossless(url: string, n: nat, p: Parsed)
    requires n == StrSep(url) && p == Parse(url) && p.status == RECOGNIZED
    ensures UrlOk(url, p) && p.seps.proto == (n < |url|)
  {
    if n < |url| {
      HostIsLossless(url[n + 3..], BLANK.(protocol := url[..n]), Seps(true, false, false));
      WithProtocol(url, n, p);
    } else {
      HostIsLossless(url, BLANK, Seps(false, false, false));
      WithoutProtocol(url, p);
    }
  }

  /** Lossless: a recognized URL is its fields joined with exactly the separators found; the
      fields are well formed, and the text shows no other separator. */
  lemma ParsePrint(url: string)
    requires Parse(url).status == RECOGNIZED
    ensures var p := Parse(url);
            WellFormed(p.url, p.seps) && Unambiguous(p.url, p.seps) && Print(p.url, p.seps) == url
  {
    UrlIsLossless(url, StrSep(url), Parse(url));
    NoColon(Parse(url).url, Parse(url).seps);
  }

  lemma JoinProtocol(url: string, n: nat, p: Parsed)
    requires n < |url| && SepAt(url, n) && p.url.protocol == url[..n] && p.seps.proto
    requires Authority(p.url, p.seps) == url[n + 3..]
    ensures Print(p.url, p.seps) == url
  {
    assert url == url[..n] + SEP + url[n + 3..];
  }

  lemma NoColon(u: HttpUrl, k: Seps)
    requires (!k.search ==> u.search == "") && (!k.port ==> ':' !in Authority(u, k))
    ensures !k.port ==> ':' !in u.path && ':' !in u.search
  {
  }

  /** The same fields printed with different separators never give the same text. */
  lemma SepsAreUnique(u: HttpUrl, k: Seps, l: Seps)
    requires WellFormed(u, k) && WellFormed(u, l) && Print(u, k) == Print(u, l)
    ensures k == l
  {
    assert k.proto == l.proto;
    if k.port && !l.port {
      SepsOrder(u, k, l);
    } else if l.port && !k.port {
      SepsOrder(u, l, k);
    }
  }

  lemma SepsOrder(u: HttpUrl, k: Seps, l: Seps)
    requires WellFormed(u, k) && WellFormed(u, l) && k.proto == l.proto && k.port && !l.port
    ensures Print(u, k) != Print(u, l)
  {
    var n := |Protocol(u, k)| + |u.host|;
    assert Print(u, k)[n] == ':';
    if u.path != "" {
      assert Print(u, l)[n] == '/';
    }
  }

  /** The exact condition: well-formed fields survive printing and parsing if and only if the
      printed text is unambiguous. */
  lemma RoundTripIff(u: HttpUrl, k: Seps)
    requires WellFormed(u, k)
    ensures Parse(Print(u, k)).status == RECOGNIZED && Parse(Print(u, k)).url == u <==> Unambiguous(u, k)
  {
    var p := Parse(Print(u, k));
    if Unambiguous(u, k) {
      PrintParse(u, k);
    } else if p.status == RECOGNIZED && p.url == u {
      ParsePrint(Print(u, k));
      SepsAreUnique(u, k, p.seps);
    }
  }

  /** The language recognized: exactly the unambiguous prints of well-formed fields. */
  lemma RecognizedIff(url: string)
    ensures Parse(url).status == RECOGNIZED <==>
              exists u, k :: WellFormed(u, k) && Unambiguous(u, k) && url == Print(u, k)
  {
    if Parse(url).status == RECOGNIZED {
      ParsePrint(url);
      var p := Parse(url);
      assert WellFormed(p.url, p.seps) && Unambiguous(p.url, p.seps) && url == Print(p.url, p.seps);
    }
    forall u, k | WellFormed(u, k) && Unambiguous(u, k) && url == Print(u, k)
      ensures Parse(url).status == RECOGNIZED
    {
      PrintParse(u, k);
    }
  }

  // The refusals.

  /** A character outside its class stands before the first `stop`, or anywhere without one. */
  ghost predicate Bad(s: string, ok: char -> bool, stop: char) {
    exists i | 0 <= i < |s| :: !ok(s[i]) && stop !in s[..i + 1]
  }

  /** That is: the part up to the first `stop` is not all in the class. */
  lemma BadIff(s: string, ok: char -> bool, stop: char)
    ensures var part := s[..StrChr(s, stop)];
            Bad(s, ok, stop) <==> exists i | 0 <= i < |part| :: !ok(part[i])
  {
    var n := StrChr(s, stop);
    if i :| 0 <= i < n && !ok(s[i]) {
      assert stop !in s[..i + 1];
    }
    if Bad(s, ok, stop) {
      var i :| 0 <= i < |s| && !ok(s[i]) && stop !in s[..i + 1];
      BeforeStop(s, i, stop);
      assert s[..n][i] == s[i];
    }
  }

  lemma BeforeStop(s: string, i: nat, stop: char)
    requires i < |s| && stop !in s[..i + 1]
    ensures i < StrChr(s, stop)
  {
  }

  ghost predicate BadProtocol(url: string) {
    exists i | 0 <= i < StrSep(url) < |url| :: !IsAlnum(url[i])
  }

  /** What follows the protocol, and what follows the colon of a port. */
  function Rest(url: string): string {
    if StrSep(url) < |url| then url[StrSep(url) + 3..] else url
  }

  function AfterHost(r: string): string {
    if StrChr(r, ':') < |r| then r[StrChr(r, ':') + 1..] else r
  }

  ghost predicate BadHost(r: string) { Bad(r, IsHostChar, if ':' in r then ':' else '/') }

  ghost predicate BadPort(r: string) { ':' in r && Bad(AfterHost(r), IsDigit, '/') }

  ghost predicate BadTail(t: string) { Bad(t, IsPathChar, '?') }

  ghost predicate BadPath(r: string) {
    var q := AfterHost(r);
    BadTail(q[StrChr(q, '/')..])
  }

  lemma TailStatus(t: string, u: HttpUrl, k: Seps)
    ensures ParsePath(t, u, k).status == if BadTail(t) then PATH_UNRECOGNIZED else RECOGNIZED
  {
  }

  lemma PortStatus(q: string, u: HttpUrl, k: Seps)
    ensures ParsePort(q, u, k).status ==
              if Bad(q, IsDigit, '/') then PORT_UNRECOGNIZED
              else if BadTail(q[StrChr(q, '/')..]) then PATH_UNRECOGNIZED
              else RECOGNIZED
  {
    var n := StrChr(q, '/');
    BadIff(q, IsDigit, '/');
    TailStatus(q[n..], u.(port := q[..n]), k.(port := true));
  }

  lemma NoPortStatus(r: string, u: HttpUrl, k: Seps)
    ensures ParseNoPort(r, u, k).status ==
              if Bad(r, IsHostChar, '/') then HOST_UNRECOGNIZED
              else if BadTail(r[StrChr(r, '/')..]) then PATH_UNRECOGNIZED
              else RECOGNIZED
  {
    var n := StrChr(r, '/');
    BadIff(r, IsHostChar, '/');
    TailStatus(r[n..], u.(host := r[..n]), k);
  }

  lemma HostPartIff(r: string, c: nat)
    requires c == StrChr(r, ':') < |r|
    ensures HostOk(r[..c]) <==> !BadHost(r)
  {
    BadIff(r, IsHostChar, ':');
  }

  lemma HostStatus(r: string, u: HttpUrl, k: Seps)
    ensures ParseHost(r, u, k).status ==
              if BadHost(r) then HOST_UNRECOGNIZED
              else if BadPort(r) then PORT_UNRECOGNIZED
              else if BadPath(r) then PATH_UNRECOGNIZED
              else RECOGNIZED
  {
    var c := StrChr(r, ':');
    if c < |r| {
      HostPartIff(r, c);
      PortStatus(r[c + 1..], u.(host := r[..c]), k);
    } else {
      NoPortStatus(r, u, k);
    }
  }

  lemma ProtocolIff(url: string, n: nat)
    requires n == StrSep(url)
    ensures BadProtocol(url) <==> n < |url| && !ProtocolOk(url[..n])
  {
  }

  /** Each refusal names the first part, from the left, that has a character outside its class,
      and there is no other refusal. */
  lemma FirstBadPartIsNamed(url: string)
    ensures var r := Rest(url);
            Parse(url).status ==
              if BadProtocol(url) then PROTO_UNRECOGNIZED
              else if BadHost(r) then HOST_UNRECOGNIZED
              else if BadPort(r) then PORT_UNRECOGNIZED
              else if BadPath(r) then PATH_UNRECOGNIZED
              else RECOGNIZED
  {
    var n := StrSep(url);
    ProtocolIff(url, n);
    if n < |url| {
      HostStatus(Rest(url), BLANK.(protocol := url[..n]), Seps(true, false, false));
    } else {
      HostStatus(url, BLANK, Seps(false, false, false));
    }
  }

  /** A colon in the path or search of a URL without a port is always refused, although the
      grammar of http_url.h allows it there. The parser takes it for the end of the host, or, when
      there is no protocol and it belongs to a "://", for the end of the protocol. */
  lemma ColonWithoutPortIsRefused(u: HttpUrl, k: Seps)
    requires WellFormed(u, k) && !k.port && (':' in u.path || ':' in u.search)
    ensures var s := Print(u, k);
            Parse(s).status == if !k.proto && StrSep(s) < |s| then PROTO_UNRECOGNIZED else HOST_UNRECOGNIZED
  {
    var s, r := Print(u, k), Authority(u, k);
    if k.proto {
      StrSepIs(u, k);
      assert s[..|u.protocol|] == u.protocol && s[|u.protocol| + 3..] == r;
      ColonEndsHost(u, k, BLANK.(protocol := u.protocol), Seps(true, false, false));
    } else {
      Prepend(r);
      if StrSep(s) < |s| {
        SepEndsProtocol(u, k, StrSep(s));
      } else {
        ColonEndsHost(u, k, BLANK, Seps(false, false, false));
      }
    }
  }

  /** Where the path starts, and that no colon stands before it. */
  lemma SlashBeforeColon(u: HttpUrl, k: Seps)
    requires WellFormed(u, k) && !k.port && (':' in u.path || ':' in u.search)
    ensures var r, n := Authority(u, k), |u.host|;
            n < |r| && r[n] == '/' && ':' in r && forall j | 0 <= j <= n :: r[j] != ':'
  {
    var r := Authority(u, k);
    if ':' !in r {
      NoColon(u, k);
      assert false;
    }
    assert u.path != "";
    assert r[|u.host|] == u.path[0];
    assert forall j | 0 <= j < |u.host| :: r[j] == u.host[j];
  }

  lemma SepEndsProtocol(u: HttpUrl, k: Seps, n: nat)
    requires WellFormed(u, k) && !k.port && (':' in u.path || ':' in u.search)
    requires SepAt(Authority(u, k), n)
    ensures !ProtocolOk(Authority(u, k)[..n])
  {
    var r := Authority(u, k);
    SlashBeforeColon(u, k);
    assert r[..n][|u.host|] == '/';
  }

  lemma ColonEndsHost(u: HttpUrl, k: Seps, v: HttpUrl, l: Seps)
    requires WellFormed(u, k) && !k.port && (':' in u.path || ':' in u.search)
    ensures ParseHost(Authority(u, k), v, l).status == HOST_UNRECOGNIZED
  {
    var r := Authority(u, k);
    SlashBeforeColon(u, k);
    SlashInHost(r, |u.host|, StrChr(r, ':'));
  }

  lemma SlashInHost(r: string, n: nat, c: nat)
    requires n < c < |r| && r[n] == '/'
    ensures !HostOk(r[..c])
  {
    assert r[..c][n] == '/';
  }

  /** What a refusal behind the protocol leaves in the fields of r: the parts before the bad one,
      cut at the separators, and nothing else. */
  ghost predicate Leaves(r: string, protocol: string, p: Parsed) {
    var u := p.url;
    && p.status != PROTO_UNRECOGNIZED && u.protocol == protocol
    && (p.status == HOST_UNRECOGNIZED ==> u == HttpUrl(protocol, "", "", "", ""))
    && (p.status == PORT_UNRECOGNIZED ==>
          u == HttpUrl(protocol, u.host, "", "", "") && ':' !in u.host && u.host + ":" <= r)
    && (p.status == PATH_UNRECOGNIZED ==>
          && u == HttpUrl(protocol, u.host, u.port, "", "") && ':' !in u.host && '/' !in u.port
          && if ':' in r then u.host + (":" + u.port) <= r else u.host <= r && '/' !in u.host && u.port == "")
  }

  lemma PortLeaves(r: string, c: nat, s: nat, v: HttpUrl, l: Seps)
    requires v == BLANK.(protocol := v.protocol)
    requires c == StrChr(r, ':') < |r| && s == StrChr(r[c + 1..], '/')
    ensures Leaves(r, v.protocol, ParsePort(r[c + 1..], v.(host := r[..c]), l))
  {
    var q := r[c + 1..];
    assert r[..c] + (":" + q[..s]) <= r;
    assert r[..c] + ":" <= r;
    assert ':' in r;
  }

  lemma NoPortLeaves(r: string, s: nat, v: HttpUrl, l: Seps)
    requires v == BLANK.(protocol := v.protocol) && ':' !in r && s == StrChr(r, '/')
    ensures Leaves(r, v.protocol, ParseNoPort(r, v, l))
  {
  }

  lemma HostLeaves(r: string, c: nat, v: HttpUrl, l: Seps)
    requires v == BLANK.(protocol := v.protocol) && c == StrChr(r, ':')
    ensures Leaves(r, v.protocol, ParseHost(r, v, l))
  {
    if c < |r| {
      PortLeaves(r, c, StrChr(r[c + 1..], '/'), v, l);
    } else {
      NoPortLeaves(r, StrChr(r, '/'), v, l);
    }
  }

  /** The fields of a refused URL; main builds the crawled domain from them without a look at the
      status. n is the first position of "://", or the length. */
  lemma RefusedFields(url: string, n: nat, p: Parsed)
    requires n == StrSep(url) && p == Parse(url)
    ensures if n == |url| then Leaves(url, "", p)
            else if ProtocolOk(url[..n]) then Leaves(url[n + 3..], url[..n], p)
            else p.status == PROTO_UNRECOGNIZED && p.url == HttpUrl("", "", "", "", "")
  {
    if n < |url| {
      HostLeaves(url[n + 3..], StrChr(url[n + 3..], ':'), BLANK.(protocol := url[..n]), Seps(true, false, false));
    } else {
      HostLeaves(url, StrChr(url, ':'), BLANK, Seps(false, false, false));
    }
  }

  // The grammar.

  /** The segments of a path, each behind a slash. */
  function Slashed(segments: seq<string>): string {
    if segments == [] then "" else "/" + segments[0] + Slashed(segments[1..])
  }

  /** The characters of a segment in http_url.h. */
  const SEGMENT_CHARS := ALNUM + "-;:@&=_.+"

  lemma {:induction false} SlashedOk(segments: seq<string>)
    requires forall i | 0 <= i < |segments| :: AllIn(segments[i], SEGMENT_CHARS)
    ensures PathOk(Slashed(segments)) && (segments != [] ==> Slashed(segments)[0] == '/')
    ensures (forall i | 0 <= i < |segments| :: ':' !in segments[i]) ==> ':' !in Slashed(segments)
  {
    if segments != [] {
      SlashedOk(segments[1..]);
      SegmentOk(segments[0]);
    }
  }

  lemma SegmentOk(s: string)
    requires AllIn(s, SEGMENT_CHARS)
    ensures PathOk(s)
  {
    forall i | 0 <= i < |s|
      ensures IsPathChar(s[i])
    {
      SegmentChar(s[i]);
    }
  }

  lemma SegmentChar(c: char)
    requires c in SEGMENT_CHARS
    ensures IsPathChar(c)
  {
    AlnumIff(c);
  }

  /** Every URL of the grammar in http_url.h with a protocol, no underscore in its host, and no colon
      behind the host except that of a port, is recognized with exactly its fields. */
  lemma GrammarIsRecognized(protocol: string, host: string, port: string, segments: seq<string>, search: string,
                            k: Seps)
    requires AllIn(protocol, DIGITS + LOWER + UPPER) && AllIn(host, DIGITS + LOWER + UPPER + ".-")
    requires AllIn(port, DIGITS) && forall i | 0 <= i < |segments| :: AllIn(segments[i], SEGMENT_CHARS)
    requires k.proto && (k.search ==> segments != []) && (!k.search ==> search == "")
    requires !k.port ==> port == "" && ':' !in search && forall i | 0 <= i < |segments| :: ':' !in segments[i]
    ensures var colonPort, query := if k.port then ":" + port else "", if k.search then "?" + search else "";
            var path := Slashed(segments);
            Parse(protocol + "://" + (host + (colonPort + (path + query))))
              == Parsed(RECOGNIZED, HttpUrl(protocol, host, port, path, search), k)
  {
    FieldsAreWellFormed(protocol, host, port, segments);
    PartsAreRecognized(HttpUrl(protocol, host, port, Slashed(segments), search), k);
  }

  lemma PartsAreRecognized(u: HttpUrl, k: Seps)
    requires WellFormed(u, k) && k.proto && (!k.port ==> ':' !in u.path && ':' !in u.search)
    ensures var colonPort, query := if k.port then ":" + u.port else "", if k.search then "?" + u.search else "";
            Parse(u.protocol + "://" + (u.host + (colonPort + (u.path + query)))) == Parsed(RECOGNIZED, u, k)
  {
    PrintParse(u, k);
  }

  lemma FieldsAreWellFormed(protocol: string, host: string, port: string, segments: seq<string>)
    requires AllIn(protocol, DIGITS + LOWER + UPPER) && AllIn(host, DIGITS + LOWER + UPPER + ".-")
    requires AllIn(port, DIGITS) && forall i | 0 <= i < |segments| :: AllIn(segments[i], SEGMENT_CHARS)
    ensures ProtocolOk(protocol) && HostOk(host) && PortOk(port)
    ensures PathOk(Slashed(segments)) && (segments != [] ==> Slashed(segments)[0] == '/')
    ensures (forall i | 0 <= i < |segments| :: ':' !in segments[i]) ==> ':' !in Slashed(segments)
  {
    ProtocolCharsIff(protocol);
    HostCharsIff(host);
    PortCharsIff(port);
    SlashedOk(segments);
  }

  /** The grammar's pattern for a host allows an underscore, which the parser always refuses. */
  lemma UnderscoreIsRefused(protocol: string, host: string, rest: string)
    requires ProtocolOk(protocol) && '_' in host && ':' !in host && '/' !in host
    requires rest == "" || rest[0] == ':' || rest[0] == '/'
    ensures Parse(protocol + SEP + (host + rest)).status == HOST_UNRECOGNIZED
  {
    var url, r := protocol + SEP + (host + rest), host + rest;
    SepAfter(protocol, r);
    assert url[..|protocol|] == protocol && url[|protocol| + 3..] == r;
    var i :| 0 <= i < |host| && host[i] == '_';
    BadPart(host, rest, i, StrChr(r, ':'));
    BadPart(host, rest, i, StrChr(r, '/'));
  }

  lemma BadPart(host: string, rest: string, i: nat, n: nat)
    requires i < |host| <= n <= |host + rest| && host[i] == '_'
    ensures !HostOk((host + rest)[..n])
  {
    assert (host + rest)[..n][i] == '_';
  }

  // The crawled domain.

  /** A URL that begins with the domain of a crawl, as main builds it from protocol and host, is on
      that host if and only if no host character follows: a longer host name may begin alike. */
  lemma SameHostIff(protocol: string, host: string, rest: string)
    requires ProtocolOk(protocol) && HostOk(host)
    requires Parse(protocol + SEP + (host + rest)).status == RECOGNIZED
    ensures var u := Parse(protocol + SEP + (host + rest)).url;
            u.protocol == protocol && (u.host == host <==> rest == "" || !IsHostChar(rest[0]))
  {
    var url, r := protocol + SEP + (host + rest), host + rest;
    SepAfter(protocol, r);
    assert url[..|protocol|] == protocol && url[|protocol| + 3..] == r;
    var v, l := BLANK.(protocol := protocol), Seps(true, false, false);
    HostIsLossless(r, v, l);
    HostEnds(r, v, l);
    HostIsPrefix(host, rest, ParseHost(r, v, l).url.host);
  }

  /** A recognized host is the longest prefix of host characters. */
  lemma HostEnds(r: string, v: HttpUrl, l: Seps)
    requires ParseHost(r, v, l).status == RECOGNIZED
    ensures var h := ParseHost(r, v, l).url.host;
            h <= r && HostOk(h) && (|h| < |r| ==> !IsHostChar(r[|h|]))
  {
    var c, s := StrChr(r, ':'), StrChr(r, '/');
    if c < |r| {
      assert ParseHost(r, v, l).url.host == r[..c];
    } else {
      assert ParseHost(r, v, l).url.host == r[..s];
    }
  }

  lemma HostIsPrefix(host: string, rest: string, h: string)
    requires HostOk(host) && h <= host + rest && HostOk(h)
    requires |h| < |host + rest| ==> !IsHostChar((host + rest)[|h|])
    ensures h == host <==> rest == "" || !IsHostChar(rest[0])
  {
    var r := host + rest;
    assert forall j | 0 <= j < |host| :: r[j] == host[j];
    if |h| > |host| {
      assert h[|host|] == r[|host|] == rest[0];
    }
    if |h| == |host| {
      assert rest != "" ==> r[|host|] == rest[0];
      assert h == r[..|host|] == host;
    }
  }

  /** So every domain begins the URLs of pages of other hosts. */
  lemma LongerHostStrays(protocol: string, host: string, c: char, path: string)
    requires ProtocolOk(protocol) && HostOk(host) && IsHostChar(c)
    requires PathOk(path) && path != "" && path[0] == '/' && ':' !in path
    ensures var p := Parse(protocol + SEP + (host + ([c] + path)));
            p.status == RECOGNIZED && p.url.protocol == protocol && p.url.host == host + [c] != host
  {
    var u := HttpUrl(protocol, host + [c], "", path, "");
    var k := Seps(true, false, false);
    assert Print(u, k) == protocol + SEP + (host + ([c] + path));
    PrintParse(u, k);
  }
}
