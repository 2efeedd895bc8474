/** Printing and parsing ShadowsocksR URIs, and exactly which configurations
    survive the trip. Strings are byte strings. */
module SsrUri {
  import opened Base64

  datatype Proxy = Proxy(server: string, port: int, protocol: string, cipher: string, obfs: string,
                         password: string, obfsParam: string, protocolParam: string, name: string)

  datatype Options = Options(server: string, port: int, protocol: string, cipher: string, obfs: string,
                             password: string, obfsParam: string, protocolParam: string)

  datatype Error = BadPayload | TooFewFields | BadPort | BadPassword

  datatype Result = Ok(options: Options) | Err(error: Error)

  // ------------------------------------------------------------------ text

  function Digit(n: nat): char
    requires n < 10
  {
    ('0' as int + n) as char
  }

  function Natural(n: nat): string {
    if n < 10 then [Digit(n)] else Natural(n / 10) + [Digit(n % 10)]
  }

  function Decimal(n: int): string { if n < 0 then "-" + Natural(-n) else Natural(n) }

  predicate IsDigit(c: char) { '0' <= c <= '9' }

  function DigitValue(c: char): nat
    requires IsDigit(c)
  {
    c as int - '0' as int
  }

  function Digits(s: string): Option<nat> {
    if s == "" || !IsDigit(s[|s| - 1]) then None
    else
      var last := DigitValue(s[|s| - 1]);
      if |s| == 1 then Some(last)
      else
        var front: Option<nat> := Digits(s[..|s| - 1]);
        if front.None? then None else Some(front.value * 10 + last)
  }

  /** A decimal number with an optional sign. */
  function Atoi(s: string): Option<int> {
    if s != "" && (s[0] == '-' || s[0] == '+') then
      var n := Digits(s[1..]);
      if n.None? then None
      else
        var v: int := n.value;
        Some(if s[0] == '-' then -v else v)
    else Digits(s)
  }

  /** The pieces between separators; always at least one. */
  function Split(s: string, sep: char): (r: seq<string>)
    ensures |r| >= 1
    decreases |s|
  {
    if sep !in s then [s]
    else
      var i := LastIndex(s, sep);
      Split(s[..i], sep) + [s[i + 1..]]
  }

  function LastIndex(s: string, c: char): (i: nat)
    requires c in s
    ensures i < |s| && s[i] == c && c !in s[i + 1..]
  {
    if s[|s| - 1] == c then |s| - 1
    else
      var i := LastIndex(s[..|s| - 1], c);
      assert s[i + 1..] == s[..|s| - 1][i + 1..] + [s[|s| - 1]];
      i
  }

  function Join(parts: seq<string>, sep: char): string {
    if parts == [] then ""
    else if |parts| == 1 then parts[0]
    else Join(parts[..|parts| - 1], sep) + [sep] + parts[|parts| - 1]
  }

  /** Where "/?" begins for the first time, or the length if it does not occur. */
  function QueryStart(s: string): (i: nat)
    ensures i <= |s|
    ensures i < |s| ==> i + 1 < |s| && s[i] == '/' && s[i + 1] == '?'
    ensures forall j :: 0 <= j < i && j + 1 < |s| ==> !(s[j] == '/' && s[j + 1] == '?')
  {
    if |s| < 2 then |s|
    else if s[0] == '/' && s[1] == '?' then 0
    else
      var i := QueryStart(s[1..]);
      assert forall j :: 1 <= j < |s| ==> s[j] == s[1..][j - 1];
      i + 1
  }

  predicate HasQuery(s: string) { QueryStart(s) < |s| }

  function TrimPrefix(s: string, prefix: string): string {
    if prefix <= s then s[|prefix|..] else s
  }

  function Before(s: string, c: char): string {
    if s == "" || s[0] == c then "" else [s[0]] + Before(s[1..], c)
  }

  // --------------------------------------------------------------- printer

  function Default(s: string, fallback: string): string { if s == "" then fallback else s }

  function Param(key: string, value: string): seq<string>
    requires Bytes(value)
  {
    if value == "" then [] else [key + "=" + Encode(value)]
  }

  ghost predicate ProxyBytes(p: Proxy) {
    && Bytes(p.server) && Bytes(p.protocol) && Bytes(p.cipher) && Bytes(p.obfs)
    && Bytes(p.password) && Bytes(p.obfsParam) && Bytes(p.protocolParam) && Bytes(p.name)
  }

  /** Everything before the encoded password. */
  function Prefix(p: Proxy): string {
    p.server + ":" + Decimal(p.port) + ":" + Default(p.protocol, "origin") + ":" + Default(p.cipher, "none")
    + ":" + Default(p.obfs, "plain") + ":"
  }

  function Params(p: Proxy): seq<string>
    requires ProxyBytes(p)
  {
    Param("obfsparam", p.obfsParam) + Param("protoparam", p.protocolParam) + Param("remarks", p.name)
  }

  function Payload(p: Proxy): string
    requires ProxyBytes(p)
  {
    Prefix(p) + Encode(p.password) + if Params(p) == [] then "" else "/?" + Join(Params(p), '&')
  }

  function Print(p: Proxy): string
    requires ProxyBytes(p) && Bytes(Payload(p))
  {
    "ssr://" + Encode(Payload(p))
  }

  // ---------------------------------------------------------------- parser

  function Hex(c: char): (n: int)
    ensures -1 <= n < 16
  {
    if '0' <= c <= '9' then c as int - '0' as int
    else if 'a' <= c <= 'f' then c as int - 'a' as int + 10
    else if 'A' <= c <= 'F' then c as int - 'A' as int + 10
    else -1
  }

  /** Query unescaping: plus is a space, a percent sign takes two hex digits. */
  function Unescape(s: string): Option<string> {
    if s == "" then Some("")
    else if s[0] != '%' then
      var rest := Unescape(s[1..]);
      if rest.None? then None else Some([if s[0] == '+' then ' ' else s[0]] + rest.value)
    else if |s| < 3 || Hex(s[1]) < 0 || Hex(s[2]) < 0 then None
    else
      var rest := Unescape(s[3..]);
      if rest.None? then None else Some([(Hex(s[1]) * 16 + Hex(s[2])) as char] + rest.value)
  }

  function AfterFirst(s: string, c: char): string {
    if s == "" then "" else if s[0] == c then s[1..] else AfterFirst(s[1..], c)
  }

  /** The value of the first well-formed pair with this key; "" if there is none. */
  function Get(pairs: seq<string>, key: string): string {
    if pairs == [] then ""
    else
      var pair := pairs[0];
      var k, v := Unescape(Before(pair, '=')), Unescape(AfterFirst(pair, '='));
      if pair != "" && ';' !in pair && k == Some(key) && v.Some? then v.value else Get(pairs[1..], key)
  }

  function DecodedParam(query: string, key: string): string {
    var v := if query == "" then "" else Get(Split(query, '&'), key);
    var d := LenientDecode(v);
    if v != "" && d.Some? then d.value else ""
  }

  function MainPart(decoded: string): string {
    if HasQuery(decoded) then decoded[..QueryStart(decoded)]
    else if '/' in decoded && |Before(decoded, '/')| == |decoded| - 1 then decoded[..|decoded| - 1]
    else decoded
  }

  function Query(decoded: string): string {
    if HasQuery(decoded) then decoded[QueryStart(decoded) + 2..] else ""
  }

  function ParseFields(parts: seq<string>, query: string): Result {
    var n := |parts|;
    if n < 6 then Err(TooFewFields)
    else
      var port := Atoi(parts[n - 5]);
      if port.None? || port.value <= 0 || port.value > 65535 then Err(BadPort)
      else
        var password := LenientDecode(parts[n - 1]);
        if password.None? then Err(BadPassword)
        else Ok(Options(Join(parts[..n - 5], ':'), port.value, parts[n - 4], parts[n - 3], parts[n - 2], password.value,
                        DecodedParam(query, "obfsparam"), DecodedParam(query, "protoparam")))
  }

  function Parse(uri: string): Result {
    var payload := TrimSpace(Before(TrimPrefix(TrimPrefix(uri, "ssr://"), "SSR://"), '#'));
    var decoded := LenientDecode(payload);
    if decoded.None? then Err(BadPayload)
    else ParseFields(Split(MainPart(decoded.value), ':'), Query(decoded.value))
  }

  // ------------------------------------------------------------ text lemmas

  lemma {:induction false} NaturalRoundTrip(n: nat)
    ensures Digits(Natural(n)) == Some(n)
    ensures Natural(n) != "" && forall i :: 0 <= i < |Natural(n)| ==> IsDigit(Natural(n)[i])
  {
    if n >= 10 {
      NaturalRoundTrip(n / 10);
      var s := Natural(n);
      assert s[..|s| - 1] == Natural(n / 10);
      assert n / 10 * 10 + n % 10 == n;
    }
  }

  predicate PortChar(c: char) { IsDigit(c) || c == '-' }

  lemma DecimalRoundTrip(n: int)
    ensures Atoi(Decimal(n)) == Some(n)
    ensures forall i :: 0 <= i < |Decimal(n)| ==> PortChar(Decimal(n)[i])
  {
    NaturalRoundTrip(if n < 0 then -n else n);
    var s := Decimal(n);
    if n < 0 {
      assert s[1..] == Natural(-n);
    } else {
      assert IsDigit(s[0]);
    }
  }

  lemma OneLastIndex(s: string, c: char, i: nat)
    requires i < |s| && s[i] == c && c !in s[i + 1..]
    ensures LastIndex(s, c) == i
  {
  }

  lemma SplitSnoc(a: string, b: string, sep: char)
    requires sep !in b
    ensures Split(a + [sep] + b, sep) == Split(a, sep) + [b]
  {
    var s := a + [sep] + b;
    assert s[|a|] == sep && s[|a| + 1..] == b && s[..|a|] == a;
    OneLastIndex(s, sep, |a|);
  }

  lemma {:induction false} JoinSplit(s: string, sep: char)
    ensures Join(Split(s, sep), sep) == s
    decreases |s|
  {
    if sep in s {
      var i := LastIndex(s, sep);
      JoinSplit(s[..i], sep);
      var front := Split(s[..i], sep);
      assert (front + [s[i + 1..]])[..|front|] == front;
      assert s[..i] + [sep] + s[i + 1..] == s;
    }
  }

  lemma {:induction false} SplitJoin(parts: seq<string>, sep: char)
    requires parts != [] && forall i :: 0 <= i < |parts| ==> sep !in parts[i]
    ensures Split(Join(parts, sep), sep) == parts
  {
    if |parts| > 1 {
      var front, last := parts[..|parts| - 1], parts[|parts| - 1];
      SplitJoin(front, sep);
      SplitSnoc(Join(front, sep), last, sep);
      assert front + [last] == parts;
    }
  }

  /** No piece of a split holds the separator. */
  lemma {:induction false} PiecesAreClean(s: string, sep: char, k: nat)
    requires k < |Split(s, sep)|
    ensures sep !in Split(s, sep)[k]
    decreases |s|
  {
    if sep in s {
      var i := LastIndex(s, sep);
      if k < |Split(s[..i], sep)| {
        PiecesAreClean(s[..i], sep, k);
      }
    }
  }

  lemma {:induction false} BeforeStops(s: string, c: char)
    ensures |Before(s, c)| <= |s| && c !in Before(s, c) && Before(s, c) <= s
    ensures |Before(s, c)| < |s| ==> s[|Before(s, c)|] == c
  {
    if s != "" && s[0] != c {
      BeforeStops(s[1..], c);
    }
  }

  lemma {:induction false} CutFirst(a: string, b: string, c: char)
    requires c !in a
    ensures Before(a + [c] + b, c) == a && AfterFirst(a + [c] + b, c) == b
  {
    var s := a + [c] + b;
    if a == "" {
      assert s[1..] == b;
    } else {
      CutFirst(a[1..], b, c);
      assert s[1..] == a[1..] + [c] + b;
      assert s[0] == a[0];
    }
  }

  lemma {:induction false} NothingBefore(s: string, c: char)
    requires c !in s
    ensures Before(s, c) == s
  {
    if s != "" {
      NothingBefore(s[1..], c);
    }
  }

  predicate QueryAt(s: string, j: nat) { j + 1 < |s| && s[j] == '/' && s[j + 1] == '?' }

  lemma FirstQuery(s: string, i: nat)
    requires QueryAt(s, i) && forall j: nat :: j < i ==> !QueryAt(s, j)
    ensures QueryStart(s) == i
  {
    var k := QueryStart(s);
    assert k < i ==> !QueryAt(s, k);
  }

  lemma HasQueryMeans(s: string)
    ensures HasQuery(s) <==> exists j: nat :: QueryAt(s, j)
  {
    if HasQuery(s) {
      assert QueryAt(s, QueryStart(s));
    }
  }

  /** A colon cannot be part of "/?". */
  lemma QueryAcrossColon(a: string, b: string)
    ensures HasQuery(a + ":" + b) <==> HasQuery(a) || HasQuery(b)
  {
    var s := a + ":" + b;
    HasQueryMeans(a);
    HasQueryMeans(b);
    HasQueryMeans(s);
    if j: nat :| QueryAt(a, j) {
      assert QueryAt(s, j);
    }
    if j: nat :| QueryAt(b, j) {
      assert QueryAt(s, |a| + 1 + j);
    }
    if j: nat :| QueryAt(s, j) {
      assert QueryAt(a, j) || (j > |a| && QueryAt(b, j - |a| - 1));
    }
  }

  lemma NoSlashNoQuery(s: string)
    requires '/' !in s
    ensures !HasQuery(s)
  {}

  // ----------------------------------------------------------- the parameters

  predicate Plain(c: char) {
    && IsByte(c) && c != '%' && c != '+' && c != '&' && c != ';'
    && c != '/' && c != '?' && c != ':' && c != '#'
  }

  ghost predicate AllPlain(s: string) { forall i :: 0 <= i < |s| ==> Plain(s[i]) }

  lemma EncodeIsPlain(s: string)
    requires Bytes(s)
    ensures AllPlain(Encode(s)) && (s != "" ==> Encode(s) != "")
  {
    EncodeIsSafe(s);
    var e := Encode(s);
    forall i | 0 <= i < |e| ensures Plain(e[i]) { assert Safe(e[i]); }
  }

  lemma {:induction false} PlainUnescapes(s: string)
    requires AllPlain(s)
    ensures Unescape(s) == Some(s)
  {
    if s != "" {
      PlainUnescapes(s[1..]);
      assert [s[0]] + s[1..] == s;
    }
  }

  /** Looking a key up past one printed parameter. */
  lemma GetParam(key: string, value: string, rest: seq<string>, want: string)
    requires Bytes(value) && value != "" && AllPlain(key) && '=' !in key && key != ""
    ensures Get(Param(key, value) + rest, want) == if key == want then Encode(value) else Get(rest, want)
    ensures '&' !in Param(key, value)[0] && AllPlain(Param(key, value)[0])
  {
    var pair := key + "=" + Encode(value);
    EncodeIsPlain(value);
    CutFirst(key, Encode(value), '=');
    PlainUnescapes(key);
    PlainUnescapes(Encode(value));
    assert pair == key + ['='] + Encode(value);
    assert AllPlain(pair);
    assert (Param(key, value) + rest)[1..] == rest;
  }

  lemma KeysArePlain()
    ensures AllPlain("obfsparam") && AllPlain("protoparam") && AllPlain("remarks")
    ensures '=' !in "obfsparam" && '=' !in "protoparam" && '=' !in "remarks"
    ensures "obfsparam" != "protoparam" && "obfsparam" != "remarks" && "protoparam" != "remarks"
  {
    assert "obfsparam"[0] != "protoparam"[0] && "obfsparam"[0] != "remarks"[0] && "protoparam"[0] != "remarks"[0];
  }

  lemma GetFrom(key: string, value: string, rest: seq<string>, want: string)
    requires Bytes(value) && AllPlain(key) && '=' !in key && key != ""
    ensures Get(Param(key, value) + rest, want) == if key == want && value != "" then Encode(value) else Get(rest, want)
  {
    if value != "" {
      GetParam(key, value, rest, want);
    } else {
      assert Param(key, value) + rest == rest;
    }
  }

  lemma ParamsLookUp(p: Proxy)
    requires ProxyBytes(p)
    ensures Get(Params(p), "obfsparam") == if p.obfsParam == "" then "" else Encode(p.obfsParam)
    ensures Get(Params(p), "protoparam") == if p.protocolParam == "" then "" else Encode(p.protocolParam)
  {
    KeysArePlain();
    var c := Param("remarks", p.name);
    var b := Param("protoparam", p.protocolParam) + c;
    assert Params(p) == Param("obfsparam", p.obfsParam) + b;
    assert c == c + [];
    hide Param;
    GetFrom("obfsparam", p.obfsParam, b, "obfsparam");
    GetFrom("obfsparam", p.obfsParam, b, "protoparam");
    GetFrom("protoparam", p.protocolParam, c, "obfsparam");
    GetFrom("protoparam", p.protocolParam, c, "protoparam");
    GetFrom("remarks", p.name, [], "obfsparam");
    GetFrom("remarks", p.name, [], "protoparam");
  }

  lemma ParamIsPlain(key: string, value: string, i: nat)
    requires Bytes(value) && AllPlain(key) && '=' !in key && key != "" && i < |Param(key, value)|
    ensures '&' !in Param(key, value)[i] && AllPlain(Param(key, value)[i]) && Param(key, value)[i] != ""
  {
    GetParam(key, value, [], "");
  }

  lemma ParamsArePlain(p: Proxy, i: nat)
    requires ProxyBytes(p) && i < |Params(p)|
    ensures '&' !in Params(p)[i] && AllPlain(Params(p)[i]) && Params(p)[i] != ""
  {
    KeysArePlain();
    var a, b := Param("obfsparam", p.obfsParam), Param("protoparam", p.protocolParam);
    if i < |a| {
      ParamIsPlain("obfsparam", p.obfsParam, i);
    } else if i < |a| + |b| {
      ParamIsPlain("protoparam", p.protocolParam, i - |a|);
    } else {
      ParamIsPlain("remarks", p.name, i - |a| - |b|);
    }
  }

  function ParamString(p: Proxy): string
    requires ProxyBytes(p)
  {
    Join(Params(p), '&')
  }

  lemma {:induction false} JoinIsBytes(parts: seq<string>)
    requires forall i :: 0 <= i < |parts| ==> AllPlain(parts[i]) && parts[i] != ""
    ensures Bytes(Join(parts, '&')) && (parts != [] ==> Join(parts, '&') != "")
  {
    if |parts| == 1 {
      assert forall i :: 0 <= i < |parts[0]| ==> Plain(parts[0][i]);
    } else if |parts| > 1 {
      var last := parts[|parts| - 1];
      JoinIsBytes(parts[..|parts| - 1]);
      assert forall i :: 0 <= i < |last| ==> Plain(last[i]);
    }
  }

  /** Printed parameters come back, empty ones included. */
  lemma ParamsRoundTrip(p: Proxy)
    requires ProxyBytes(p)
    ensures DecodedParam(ParamString(p), "obfsparam") == p.obfsParam
    ensures DecodedParam(ParamString(p), "protoparam") == p.protocolParam
  {
    var parts := Params(p);
    forall i | 0 <= i < |parts|
      ensures '&' !in parts[i] && AllPlain(parts[i]) && parts[i] != "" { ParamsArePlain(p, i); }
    JoinIsBytes(parts);
    ParamsLookUp(p);
    LenientRoundTrip(p.obfsParam);
    LenientRoundTrip(p.protocolParam);
    EncodeIsPlain(p.obfsParam);
    EncodeIsPlain(p.protocolParam);
    hide Params, Encode, LenientDecode, Unescape, AllPlain;
    if parts != [] {
      SplitJoin(parts, '&');
    }
  }

  // --------------------------------------------------------- the round trip

  function Protocol(p: Proxy): string { Default(p.protocol, "origin") }
  function Cipher(p: Proxy): string { Default(p.cipher, "none") }
  function Obfs(p: Proxy): string { Default(p.obfs, "plain") }

  function Expected(p: Proxy): Options {
    Options(p.server, p.port, Protocol(p), Cipher(p), Obfs(p), p.password, p.obfsParam, p.protocolParam)
  }

  /** A port that exists, no "/?" before the password, and no colon in the last
      three named fields. The server may hold colons. */
  ghost predicate Survives(p: Proxy) {
    && 1 <= p.port <= 65535
    && !HasQuery(p.server) && !HasQuery(p.protocol) && !HasQuery(p.cipher) && !HasQuery(p.obfs)
    && ':' !in p.protocol && ':' !in p.cipher && ':' !in p.obfs
  }

  function Main(p: Proxy): string
    requires ProxyBytes(p)
  {
    Prefix(p) + Encode(p.password)
  }

  lemma LiteralsAreBytes()
    ensures Bytes("ssr://") && Bytes("/?") && Bytes(":")
  {}

  lemma DefaultIsClean(s: string, fallback: string)
    requires fallback == "origin" || fallback == "none" || fallback == "plain"
    ensures Bytes(s) ==> Bytes(Default(s, fallback))
    ensures HasQuery(Default(s, fallback)) <==> HasQuery(s)
    ensures ':' in Default(s, fallback) <==> ':' in s
  {
    NoSlashNoQuery(fallback);
    NoSlashNoQuery("");
  }

  lemma DefaultsAreClean(p: Proxy)
    requires ProxyBytes(p)
    ensures Bytes(Protocol(p)) && Bytes(Cipher(p)) && Bytes(Obfs(p))
    ensures HasQuery(Protocol(p)) <==> HasQuery(p.protocol)
    ensures HasQuery(Cipher(p)) <==> HasQuery(p.cipher)
    ensures HasQuery(Obfs(p)) <==> HasQuery(p.obfs)
    ensures ':' in Protocol(p) <==> ':' in p.protocol
    ensures ':' in Cipher(p) <==> ':' in p.cipher
    ensures ':' in Obfs(p) <==> ':' in p.obfs
  {
    hide HasQuery, Default, Bytes;
    DefaultIsClean(p.protocol, "origin");
    DefaultIsClean(p.cipher, "none");
    DefaultIsClean(p.obfs, "plain");
  }

  lemma BytesConcat(a: string, b: string)
    requires Bytes(a) && Bytes(b)
    ensures Bytes(a + b)
  {}

  lemma PrefixBytes(p: Proxy)
    requires ProxyBytes(p)
    ensures Bytes(Prefix(p))
  {
    DefaultsAreClean(p);
    LiteralsAreBytes();
    DecimalRoundTrip(p.port);
    hide Decimal, Bytes, Protocol, Cipher, Obfs;
    assert Bytes(Decimal(p.port)) by { PortIsBytes(p.port); }
    BytesConcat(p.server, ":");
    BytesConcat(p.server + ":", Decimal(p.port));
    var a := p.server + ":" + Decimal(p.port);
    BytesConcat(a, ":");
    BytesConcat(a + ":", Protocol(p));
    var b := a + ":" + Protocol(p);
    BytesConcat(b, ":");
    BytesConcat(b + ":", Cipher(p));
    var c := b + ":" + Cipher(p);
    BytesConcat(c, ":");
    BytesConcat(c + ":", Obfs(p));
    BytesConcat(c + ":" + Obfs(p), ":");
  }

  lemma PortIsBytes(port: int)
    ensures Bytes(Decimal(port)) && ':' !in Decimal(port) && '/' !in Decimal(port)
  {
    DecimalRoundTrip(port);
    var s := Decimal(port);
    hide Decimal;
    forall i | 0 <= i < |s| ensures IsByte(s[i]) && s[i] != ':' && s[i] != '/' { assert PortChar(s[i]); }
  }

  lemma PayloadBytes(p: Proxy)
    requires ProxyBytes(p)
    ensures Bytes(Payload(p))
  {
    PrefixBytes(p);
    EncodeIsPlain(p.password);
    LiteralsAreBytes();
    forall i | 0 <= i < |Params(p)| ensures AllPlain(Params(p)[i]) && Params(p)[i] != "" { ParamsArePlain(p, i); }
    JoinIsBytes(Params(p));
    hide Params, Encode, Prefix, Join;
    BytesConcat(Prefix(p), Encode(p.password));
  }

  /** The wrapping comes off: a printed URI parses as its payload does. */
  lemma Unwraps(p: Proxy)
    requires ProxyBytes(p) && Bytes(Payload(p))
    ensures Parse(Print(p)) == ParseFields(Split(MainPart(Payload(p)), ':'), Query(Payload(p)))
  {
    var d := Payload(p);
    hide Payload, MainPart, Query, ParseFields, Split;
    var e := Encode(d);
    EncodeIsSafe(d);
    EncodeIsPlain(d);
    assert Print(p) == "ssr://" + e;
    assert ("ssr://" + e)[6..] == e;
    hide Encode;
    assert |e| > 3 ==> Plain(e[3]);
    assert !("SSR://" <= e);
    assert '#' !in e;
    NothingBefore(e, '#');
    NothingToTrim(e);
    LenientRoundTrip(d);
  }

  lemma MainHasQuery(p: Proxy)
    requires ProxyBytes(p)
    ensures HasQuery(Main(p)) <==> HasQuery(p.server) || HasQuery(p.protocol) || HasQuery(p.cipher) || HasQuery(p.obfs)
  {
    EncodeIsPlain(p.password);
    PortIsBytes(p.port);
    DefaultsAreClean(p);
    var n, w := Decimal(p.port), Encode(p.password);
    NoSlashNoQuery(n);
    assert '/' !in w;
    NoSlashNoQuery(w);
    hide HasQuery, Encode, Decimal;
    var a := p.server + ":" + n;
    QueryAcrossColon(p.server, n);
    var b := a + ":" + Protocol(p);
    QueryAcrossColon(a, Protocol(p));
    var c := b + ":" + Cipher(p);
    QueryAcrossColon(b, Cipher(p));
    var d := c + ":" + Obfs(p);
    QueryAcrossColon(c, Obfs(p));
    QueryAcrossColon(d, w);
    assert Main(p) == d + ":" + w;
  }

  /** The main part does not end in a slash. */
  lemma MainEnd(p: Proxy)
    requires ProxyBytes(p)
    ensures Main(p) != "" && Main(p)[|Main(p)| - 1] != '/'
  {
    EncodeIsPlain(p.password);
    var w := Encode(p.password);
    hide Encode;
    if w != "" {
      assert Plain(w[|w| - 1]);
    }
  }

  lemma MainIsFound(p: Proxy)
    requires ProxyBytes(p) && !HasQuery(Main(p))
    ensures MainPart(Payload(p)) == Main(p) && Query(Payload(p)) == ParamString(p)
  {
    var m, d := Main(p), Payload(p);
    MainEnd(p);
    HasQueryMeans(m);
    hide HasQuery, Main, Prefix, Encode;
    if Params(p) == [] {
      assert d == m;
      BeforeStops(m, '/');
      assert Query(d) == "" && MainPart(d) == m;
    } else {
      assert d == m + "/?" + ParamString(p);
      hide Payload, Params, ParamString;
      assert QueryAt(d, |m|);
      forall j: nat | j < |m| ensures !QueryAt(d, j) {
        assert !QueryAt(m, j);
      }
      FirstQuery(d, |m|);
      HasQueryMeans(d);
    }
  }

  lemma CleanFieldsSplit(p: Proxy)
    requires ProxyBytes(p) && ':' !in Protocol(p) && ':' !in Cipher(p) && ':' !in Obfs(p)
    ensures Split(Main(p), ':') ==
      Split(p.server, ':') + [Decimal(p.port), Protocol(p), Cipher(p), Obfs(p), Encode(p.password)]
  {
    EncodeIsPlain(p.password);
    PortIsBytes(p.port);
    assert ':' !in Encode(p.password);
    hide Split, Encode, Decimal, Default, AllPlain;
    SplitFive(p.server, Decimal(p.port), Protocol(p), Cipher(p), Obfs(p), Encode(p.password));
  }

  lemma SplitFive(s: string, a: string, b: string, c: string, d: string, e: string)
    requires ':' !in a && ':' !in b && ':' !in c && ':' !in d && ':' !in e
    ensures Split(s + ":" + a + ":" + b + ":" + c + ":" + d + ":" + e, ':') == Split(s, ':') + [a, b, c, d, e]
  {
    hide Split;
    SplitColon(s, a);
    var t := s + ":" + a;
    SplitColon(t, b);
    var u := t + ":" + b;
    assert Split(u, ':') == Split(s, ':') + [a, b];
    SplitColon(u, c);
    var v := u + ":" + c;
    SplitColon(v, d);
    var w := v + ":" + d;
    assert Split(w, ':') == Split(s, ':') + [a, b, c, d];
    SplitColon(w, e);
  }

  lemma SplitColon(a: string, b: string)
    requires ':' !in b
    ensures Split(a + ":" + b, ':') == Split(a, ':') + [b]
  {
    SplitSnoc(a, b, ':');
    assert a + ":" + b == a + [':'] + b;
  }

  lemma FieldsParse(host: seq<string>, p: Proxy, n: string, w: string, query: string)
    requires host != [] && Join(host, ':') == p.server && Atoi(n) == Some(p.port) && 1 <= p.port <= 65535
    requires LenientDecode(w) == Some(p.password)
    requires DecodedParam(query, "obfsparam") == p.obfsParam && DecodedParam(query, "protoparam") == p.protocolParam
    ensures ParseFields(host + [n, Protocol(p), Cipher(p), Obfs(p), w], query) == Ok(Expected(p))
  {
    var parts := host + [n, Protocol(p), Cipher(p), Obfs(p), w];
    hide Join, Atoi, LenientDecode, DecodedParam, Default;
    assert parts[..|parts| - 5] == host;
  }

  lemma SurvivorsAreClean(p: Proxy)
    requires ProxyBytes(p) && Survives(p)
    ensures !HasQuery(Main(p)) && ':' !in Protocol(p) && ':' !in Cipher(p) && ':' !in Obfs(p) && 1 <= p.port <= 65535
  {
    MainHasQuery(p);
    DefaultsAreClean(p);
  }

  lemma Forward(p: Proxy)
    requires ProxyBytes(p) && Survives(p) && Bytes(Payload(p))
    ensures Parse(Print(p)) == Ok(Expected(p))
  {
    SurvivorsAreClean(p);
    hide Survives, Parse, Print, Payload, MainPart, Query, Split, Join, Decimal, Encode, LenientDecode, DecodedParam,
      HasQuery,
      Main, Atoi, ParseFields, Expected, Protocol, Cipher, Obfs, ParamString;
    Unwraps(p);
    MainIsFound(p);
    CleanFieldsSplit(p);
    JoinSplit(p.server, ':');
    DecimalRoundTrip(p.port);
    LenientRoundTrip(p.password);
    ParamsRoundTrip(p);
    FieldsParse(Split(p.server, ':'), p, Decimal(p.port), Encode(p.password), ParamString(p));
  }

  function Spelled(server: string, port: string, protocol: string, cipher: string, obfs: string, w: string): string {
    server + ":" + port + ":" + protocol + ":" + cipher + ":" + obfs + ":" + w
  }

  /** Whatever parses has its last fields free of colons, and is spelled out by a
      prefix of the main part. */
  lemma ParsedFields(m: string, query: string)
    requires ParseFields(Split(m, ':'), query).Ok?
    ensures var o := ParseFields(Split(m, ':'), query).options;
      && 1 <= o.port <= 65535 && ':' !in o.protocol && ':' !in o.cipher && ':' !in o.obfs
      && exists n, w :: ':' !in n && m == Spelled(o.server, n, o.protocol, o.cipher, o.obfs, w)
  {
    var parts := Split(m, ':');
    var k := |parts|;
    JoinSplit(m, ':');
    PiecesAreClean(m, ':', k - 2);
    PiecesAreClean(m, ':', k - 3);
    PiecesAreClean(m, ':', k - 4);
    PiecesAreClean(m, ':', k - 5);
    hide Split, Atoi, LenientDecode, DecodedParam;
    var o := ParseFields(parts, query).options;
    JoinLast(parts, k);
    JoinLast(parts, k - 1);
    JoinLast(parts, k - 2);
    JoinLast(parts, k - 3);
    JoinLast(parts, k - 4);
    assert parts[..k] == parts;
    hide Join;
    assert m == Spelled(o.server, parts[k - 5], o.protocol, o.cipher, o.obfs, parts[k - 1]);
  }

  lemma JoinLast(parts: seq<string>, k: nat)
    requires 2 <= k <= |parts|
    ensures Join(parts[..k], ':') == Join(parts[..k - 1], ':') + ":" + parts[k - 1]
  {
    assert parts[..k][..k - 1] == parts[..k - 1];
  }

  /** Two texts that agree up to a colon-free field and its colon have the same
      field there. */
  lemma SameField(s: string, n: string, x: string, m: string, y: string)
    requires s + n + ":" + x <= s + m + ":" + y && ':' !in n && ':' !in m
    ensures n == m
  {
    var a, b := s + n + ":" + x, s + m + ":" + y;
    assert a[|s| + |n|] == ':' == b[|s| + |m|];
    assert forall i :: 0 <= i < |a| ==> a[i] == b[i];
    assert forall i :: 0 <= i < |n| ==> a[|s| + i] == n[i];
    assert forall i :: 0 <= i < |m| ==> b[|s| + i] == m[i];
    assert a[..|s| + |n|] == s + n && b[..|s| + |m|] == s + m;
  }

  /** A "/?" in a field cuts the main part off before the password. */
  lemma CutShort(p: Proxy)
    requires ProxyBytes(p) && HasQuery(Main(p))
    ensures MainPart(Payload(p)) <= Main(p) && |MainPart(Payload(p))| < |Prefix(p)|
  {
    EncodeIsPlain(p.password);
    var m, d, w := Main(p), Payload(p), Encode(p.password);
    var q := QueryStart(m);
    assert m[q] == '/';
    assert q < |Prefix(p)|;
    hide Main, Prefix, Encode, HasQuery;
    assert d[..|m|] == m by { hide Params, Join; }
    hide Payload;
    assert QueryAt(d, q);
    forall j: nat | j < q ensures !QueryAt(d, j) {
      assert d[j] == m[j] && d[j + 1] == m[j + 1];
    }
    FirstQuery(d, q);
    HasQueryMeans(d);
    assert MainPart(d) == d[..q] == m[..q] by { ByQuery(d); }
  }

  lemma ByQuery(d: string)
    ensures HasQuery(d) ==> MainPart(d) == d[..QueryStart(d)]
    ensures HasQuery(d) <==> QueryStart(d) < |d|
  {}

  lemma Backward(p: Proxy)
    requires ProxyBytes(p) && Bytes(Payload(p)) && Parse(Print(p)) == Ok(Expected(p))
    ensures Survives(p)
  {
    var d := Payload(p);
    Unwraps(p);
    ParsedFields(MainPart(d), Query(d));
    MainHasQuery(p);
    PortIsBytes(p.port);
    DefaultsAreClean(p);
    hide Parse, Print, Payload, MainPart, Query, Split, Decimal, Encode, ParseFields, HasQuery;
    if HasQuery(Main(p)) {
      CutShort(p);
      var n, w :| ':' !in n && MainPart(d) == Spelled(p.server, n, Protocol(p), Cipher(p), Obfs(p), w);
      NotCut(p, n, w, MainPart(d));
      assert false;
    }
  }

  /** A prefix of the main part that spells every field is not cut short. */
  lemma NotCut(p: Proxy, n: string, w: string, m: string)
    requires ProxyBytes(p) && ':' !in n
    requires m == Spelled(p.server, n, Protocol(p), Cipher(p), Obfs(p), w) && m <= Main(p)
    ensures |m| >= |Prefix(p)|
  {
    PortIsBytes(p.port);
    hide Encode, Decimal, Default;
    var x := Protocol(p) + ":" + Cipher(p) + ":" + Obfs(p) + ":";
    assert m == p.server + ":" + n + ":" + (x + w);
    assert Main(p) == p.server + ":" + Decimal(p.port) + ":" + (x + Encode(p.password));
    SameField(p.server + ":", n, x + w, Decimal(p.port), x + Encode(p.password));
  }

  /** Parsing a printed configuration gives it back, with the defaults filled in,
      exactly when it survives. */
  lemma RoundTripExactly(p: Proxy)
    requires ProxyBytes(p)
    ensures Bytes(Payload(p))
    ensures Parse(Print(p)) == Ok(Expected(p)) <==> Survives(p)
  {
    PayloadBytes(p);
    hide Parse, Print, Survives, Expected, Payload;
    if Survives(p) {
      Forward(p);
    } else if Parse(Print(p)) == Ok(Expected(p)) {
      Backward(p);
    }
  }

  lemma KnownNumbers()
    ensures Atoi("80") == Some(80) && Atoi("+80") == Some(80) && Atoi("-80") == Some(-80)
    ensures Atoi("").None? && Atoi("-").None? && Atoi("8x").None?
  {
    assert "+80"[1..] == "80" && "-80"[1..] == "80" && "-"[1..] == "";
    assert "80"[..1] == "8" && "8x"[..1] == "8" && "8"[..0] == "";
    assert Digits("8") == Some(8);
    assert Digits("80") == Some(80);
  }

  const EXAMPLE := Proxy("a", 1, "", "", "", "f", "", "", "foo")

  lemma ExamplePrefix()
    ensures Prefix(EXAMPLE) == "a:1:origin:none:plain:"
  {
    assert Decimal(1) == "1";
  }

  lemma ExampleParams()
    ensures ProxyBytes(EXAMPLE) && Params(EXAMPLE) == ["remarks=Zm9v"] && Encode("f") == "Zg=="
    ensures Join(Params(EXAMPLE), '&') == "remarks=Zm9v"
  {
    KnownEncodings();
    hide Encode;
    ExampleRemarks();
    assert Param("obfsparam", "") == [] && Param("protoparam", "") == [];
    hide Param;
    assert [] + [] + ["remarks=Zm9v"] == ["remarks=Zm9v"];
  }

  lemma ExampleRemarks()
    ensures Param("remarks", "foo") == ["remarks=Zm9v"]
  {
    KnownEncodings();
    hide Encode;
    assert "remarks" + "=" + "Zm9v" == "remarks=Zm9v";
  }

  /** One printed configuration, written out. */
  lemma PrintedExample()
    ensures ProxyBytes(EXAMPLE) && Payload(EXAMPLE) == "a:1:origin:none:plain:Zg==/?remarks=Zm9v"
    ensures Bytes(Payload(EXAMPLE))
    ensures Print(EXAMPLE) == "ssr://" + Encode("a:1:origin:none:plain:Zg==/?remarks=Zm9v")
  {
    ExamplePrefix();
    ExampleParams();
    hide Prefix, Params, Encode, Join;
  }
}
