/** Base64 as in sections 4 and 5 of RFC 4648, on strings of byte-valued
    characters, and the lenient decoder that tries four variants in turn. */
module Base64 {

  datatype Option<+T> = None | Some(value: T)

  predicate IsByte(c: char) { c as int < 256 }

  ghost predicate Bytes(s: string) { forall i :: 0 <= i < |s| ==> IsByte(s[i]) }

  // ------------------------------------------------------------- alphabets

  /** The URL-safe alphabet. */
  function Symbol(n: nat): char
    requires n < 64
  {
    if n < 26 then ('A' as int + n) as char
    else if n < 52 then ('a' as int + n - 26) as char
    else if n < 62 then ('0' as int + n - 52) as char
    else if n == 62 then '-' else '_'
  }

  /** What a character stands for; -1 if it is not in the alphabet. */
  function Value(c: char, urlSafe: bool): (n: int)
    ensures -1 <= n < 64
  {
    if 'A' <= c <= 'Z' then c as int - 'A' as int
    else if 'a' <= c <= 'z' then c as int - 'a' as int + 26
    else if '0' <= c <= '9' then c as int - '0' as int + 52
    else if c == (if urlSafe then '-' else '+') then 62
    else if c == (if urlSafe then '_' else '/') then 63
    else -1
  }

  predicate IsSymbol(c: char) { Value(c, true) >= 0 }

  /** Nothing the URI syntax around it uses. */
  predicate Safe(c: char) { IsSymbol(c) || c == '=' }

  ghost predicate AllSafe(s: string) { forall i :: 0 <= i < |s| ==> Safe(s[i]) }

  lemma SymbolValue(n: nat)
    requires n < 64
    ensures Value(Symbol(n), true) == n && IsSymbol(Symbol(n)) && Symbol(n) != '='
  {}

  // -------------------------------------------------------------- encoding

  function Group(a: int, b: int, c: int): string
    requires 0 <= a < 256 && 0 <= b < 256 && 0 <= c < 256
  {
    [Symbol(a / 4), Symbol(a % 4 * 16 + b / 16), Symbol(b % 16 * 4 + c / 64), Symbol(c % 64)]
  }

  /** The last one or two bytes, without padding. */
  function Tail(s: string): (r: string)
    requires Bytes(s) && 1 <= |s| <= 2
    ensures |r| == |s| + 1
  {
    if |s| == 1 then Group(s[0] as int, 0, 0)[..2] else Group(s[0] as int, s[1] as int, 0)[..3]
  }

  function Padding(n: nat): string { seq(n, i => '=') }

  /** The URL-safe encoding with padding. */
  function Encode(s: string): string
    requires Bytes(s)
  {
    if |s| == 0 then ""
    else if |s| <= 2 then Tail(s) + Padding(3 - |s|)
    else Group(s[0] as int, s[1] as int, s[2] as int) + Encode(s[3..])
  }

  // -------------------------------------------------------------- decoding

  function StripNewlines(s: string): string {
    if s == "" then "" else (if s[0] == '\r' || s[0] == '\n' then "" else [s[0]]) + StripNewlines(s[1..])
  }

  function Whole(v: int, w: int, x: int, y: int): string
    requires 0 <= v < 64 && 0 <= w < 64 && 0 <= x < 64 && 0 <= y < 64
  {
    [(v * 4 + w / 16) as char, (w % 16 * 16 + x / 4) as char, (x % 4 * 64 + y) as char]
  }

  /** The final group. Bits beyond the last byte are ignored. */
  function Last(s: string, urlSafe: bool, padded: bool): Option<string> {
    var n := if !padded then |s| else if |s| != 4 || s[3] != '=' then 0 else if s[2] == '=' then 2 else 3;
    if n == 2 && |s| >= 2 && Value(s[0], urlSafe) >= 0 && Value(s[1], urlSafe) >= 0 then
      Some(Whole(Value(s[0], urlSafe), Value(s[1], urlSafe), 0, 0)[..1])
    else if n == 3 && |s| >= 3 && forall i :: 0 <= i < 3 ==> Value(s[i], urlSafe) >= 0 then
      Some(Whole(Value(s[0], urlSafe), Value(s[1], urlSafe), Value(s[2], urlSafe), 0)[..2])
    else None
  }

  predicate FullGroup(s: string, urlSafe: bool) {
    |s| >= 4 && forall i :: 0 <= i < 4 ==> Value(s[i], urlSafe) >= 0
  }

  function Groups(s: string, urlSafe: bool, padded: bool): Option<string> {
    if s == "" then Some("")
    else if FullGroup(s, urlSafe) then
      var rest := Groups(s[4..], urlSafe, padded);
      if rest.None? then None
      else
        var first := Whole(Value(s[0], urlSafe), Value(s[1], urlSafe), Value(s[2], urlSafe), Value(s[3], urlSafe));
        Some(first + rest.value)
    else Last(s, urlSafe, padded)
  }

  function Decode(s: string, urlSafe: bool, padded: bool): Option<string> {
    Groups(StripNewlines(s), urlSafe, padded)
  }

  predicate IsSpace(c: char) { c == ' ' || '\t' <= c <= '\r' }

  function TrimRight(s: string, drop: char -> bool): string {
    if s != "" && drop(s[|s| - 1]) then TrimRight(s[..|s| - 1], drop) else s
  }

  function TrimLeft(s: string, drop: char -> bool): string {
    if s != "" && drop(s[0]) then TrimLeft(s[1..], drop) else s
  }

  function TrimSpace(s: string): string { TrimLeft(TrimRight(s, IsSpace), IsSpace) }

  function TrimPadding(s: string): string { TrimRight(s, c => c == '=') }

  function Pad(s: string): string { if |s| % 4 == 0 then s else s + Padding(4 - |s| % 4) }

  /** Standard, URL-safe, then both without padding. */
  function LenientDecode(raw: string): Option<string> {
    var s := TrimPadding(TrimSpace(raw));
    var standard := Decode(Pad(s), false, true);
    if standard.Some? then standard
    else
      var urlSafe := Decode(Pad(s), true, true);
      if urlSafe.Some? then urlSafe
      else
        var rawStandard := Decode(s, false, false);
        if rawStandard.Some? then rawStandard else Decode(s, true, false)
  }

  // ---------------------------------------------------------------- lemmas

  lemma BitsRoundTrip(a: int, b: int, c: int)
    requires 0 <= a < 256 && 0 <= b < 256 && 0 <= c < 256
    ensures a / 4 * 4 + (a % 4 * 16 + b / 16) / 16 == a
    ensures (a % 4 * 16 + b / 16) % 16 * 16 + (b % 16 * 4 + c / 64) / 4 == b
    ensures (b % 16 * 4 + c / 64) % 4 * 64 + c % 64 == c
  {}

  /** Four symbols, taken together again, are the three bytes. */
  lemma WholeOfBits(a: int, b: int, c: int)
    requires 0 <= a < 256 && 0 <= b < 256 && 0 <= c < 256
    ensures Whole(a / 4, a % 4 * 16 + b / 16, b % 16 * 4 + c / 64, c % 64) == [a as char, b as char, c as char]
  {
    BitsRoundTrip(a, b, c);
  }

  lemma GroupSymbols(v: nat, w: nat, x: nat, y: nat)
    requires v < 64 && w < 64 && x < 64 && y < 64
    ensures var g := [Symbol(v), Symbol(w), Symbol(x), Symbol(y)];
      && (forall i :: 0 <= i < 4 ==> IsSymbol(g[i]) && g[i] != '=')
      && Value(g[0], true) == v && Value(g[1], true) == w && Value(g[2], true) == x && Value(g[3], true) == y
  {
    SymbolValue(v);
    SymbolValue(w);
    SymbolValue(x);
    SymbolValue(y);
    hide Symbol, Value, IsSymbol;
  }

  lemma GroupRoundTrip(a: int, b: int, c: int)
    requires 0 <= a < 256 && 0 <= b < 256 && 0 <= c < 256
    ensures var g := Group(a, b, c);
      && (forall i :: 0 <= i < 4 ==> IsSymbol(g[i]) && g[i] != '=')
      && Whole(Value(g[0], true), Value(g[1], true), Value(g[2], true), Value(g[3], true)) ==
        [a as char, b as char, c as char]
  {
    hide Symbol, Value, Whole, IsSymbol;
    WholeOfBits(a, b, c);
    GroupSymbols(a / 4, a % 4 * 16 + b / 16, b % 16 * 4 + c / 64, c % 64);
  }

  lemma TailShape(s: string)
    requires Bytes(s) && 1 <= |s| <= 2
    ensures var g := Group(s[0] as int, if |s| == 1 then 0 else s[1] as int, 0);
      && |g| == 4 && Tail(s) == g[..|s| + 1]
      && Value(g[3], true) == 0 && (|s| == 1 ==> Value(g[2], true) == 0)
  {
    SymbolValue(0);
  }

  lemma OneByteRoundTrip(s: string, g: string)
    requires Bytes(s) && |s| == 1 && |g| == 4 && Tail(s) == g[..2]
    requires forall i :: 0 <= i < 4 ==> IsSymbol(g[i])
    requires Whole(Value(g[0], true), Value(g[1], true), 0, 0)[..1] == s
    ensures Groups(Tail(s) + Padding(2), true, true) == Some(s)
  {
    var e := Tail(s) + Padding(2);
    assert Value('=', true) == -1;
    hide Symbol, Value, Tail, Whole;
    assert e == [g[0], g[1], '=', '='] && e[3] == '=';
    assert !FullGroup(e, true);
    assert Groups(e, true, true) == Last(e, true, true);
  }

  lemma TwoBytesRoundTrip(s: string, g: string)
    requires Bytes(s) && |s| == 2 && |g| == 4 && Tail(s) == g[..3]
    requires forall i :: 0 <= i < 4 ==> IsSymbol(g[i]) && g[i] != '='
    requires Whole(Value(g[0], true), Value(g[1], true), Value(g[2], true), 0)[..2] == s
    ensures Groups(Tail(s) + Padding(1), true, true) == Some(s)
  {
    var e := Tail(s) + Padding(1);
    assert Value('=', true) == -1;
    hide Symbol, Value, Tail, Whole;
    assert e == [g[0], g[1], g[2], '='] && e[3] == '=';
    assert !FullGroup(e, true);
    assert Groups(e, true, true) == Last(e, true, true);
  }

  lemma TailRoundTrip(s: string)
    requires Bytes(s) && 1 <= |s| <= 2
    ensures Groups(Tail(s) + Padding(3 - |s|), true, true) == Some(s)
    ensures forall i :: 0 <= i < |Tail(s)| ==> IsSymbol(Tail(s)[i]) && Tail(s)[i] != '='
  {
    var a, b := s[0] as int, if |s| == 1 then 0 else s[1] as int;
    GroupRoundTrip(a, b, 0);
    TailShape(s);
    var g := Group(a, b, 0);
    hide Symbol, Value, Group, Tail, Groups;
    if |s| == 1 {
      OneByteRoundTrip(s, g);
    } else {
      TwoBytesRoundTrip(s, g);
    }
  }

  /** Decoding an encoding, in the same alphabet, gives the bytes back. */
  lemma {:induction false} GroupsRoundTrip(s: string)
    requires Bytes(s)
    ensures Groups(Encode(s), true, true) == Some(s)
  {
    if 1 <= |s| <= 2 {
      TailRoundTrip(s);
    } else if |s| > 2 {
      GroupRoundTrip(s[0] as int, s[1] as int, s[2] as int);
      GroupsRoundTrip(s[3..]);
      var e := Encode(s);
      hide Value, Whole, Group;
      assert e[4..] == Encode(s[3..]);
      assert [s[0], s[1], s[2]] + s[3..] == s;
    }
  }

  /** An encoding is whole groups of safe characters, padded only at the end. */
  lemma {:induction false} EncodeShape(s: string) returns (core: string, k: nat, groups: nat)
    requires Bytes(s)
    ensures Encode(s) == core + Padding(k) && k < 3 && |core| + k == 4 * groups
    ensures forall i :: 0 <= i < |core| ==> IsSymbol(core[i]) && core[i] != '='
  {
    if |s| == 0 {
      core, k, groups := "", 0, 0;
    } else if |s| <= 2 {
      TailRoundTrip(s);
      core, k, groups := Tail(s), 3 - |s|, 1;
    } else {
      GroupRoundTrip(s[0] as int, s[1] as int, s[2] as int);
      var rest;
      rest, k, groups := EncodeShape(s[3..]);
      groups := groups + 1;
      hide Value, Whole, Group, IsSymbol, Padding;
      var g := Group(s[0] as int, s[1] as int, s[2] as int);
      core := g + rest;
      assert Encode(s) == g + (rest + Padding(k)) == core + Padding(k);
    }
  }

  lemma EncodeIsSafe(s: string)
    requires Bytes(s)
    ensures AllSafe(Encode(s))
  {
    var core, k, groups := EncodeShape(s);
  }

  lemma {:induction false} NothingToStrip(s: string)
    requires AllSafe(s)
    ensures StripNewlines(s) == s
  {
    if s != "" {
      NothingToStrip(s[1..]);
      assert [s[0]] + s[1..] == s;
    }
  }

  lemma NothingToTrim(s: string)
    requires AllSafe(s)
    ensures TrimSpace(s) == s
  {
    if s != "" {
      assert Safe(s[0]) && Safe(s[|s| - 1]);
    }
  }

  lemma {:induction false} TrimPads(core: string, k: nat)
    requires core == "" || core[|core| - 1] != '='
    ensures TrimPadding(core + Padding(k)) == core
  {
    var s := core + Padding(k);
    if k > 0 {
      assert s[|s| - 1] == '=' && s[..|s| - 1] == core + Padding(k - 1);
      TrimPads(core, k - 1);
    } else {
      assert s == core;
    }
  }

  /** Where both alphabets can read a text, they read the same. */
  lemma {:induction false} AlphabetsAgree(s: string, padded: bool)
    requires Groups(s, false, padded).Some? && Groups(s, true, padded).Some?
    ensures Groups(s, false, padded) == Groups(s, true, padded)
  {
    if s != "" {
      assert forall c :: Value(c, false) >= 0 && Value(c, true) >= 0 ==> Value(c, false) == Value(c, true);
      if FullGroup(s, false) && FullGroup(s, true) {
        AlphabetsAgree(s[4..], padded);
      } else {
        OnlyOneFull(s, padded);
      }
    }
  }

  /** A text is not a full group in one alphabet and a final group in the other. */
  lemma OnlyOneFull(s: string, padded: bool)
    requires s != "" && !(FullGroup(s, false) && FullGroup(s, true))
    requires Groups(s, false, padded).Some? && Groups(s, true, padded).Some?
    ensures !FullGroup(s, false) && !FullGroup(s, true)
  {}

  lemma PadLength(n: nat, k: nat, groups: nat)
    requires n + k == 4 * groups && k < 3
    ensures if k == 0 then n % 4 == 0 else n % 4 == 4 - k
  {}

  lemma TrimmedPadsBack(s: string)
    requires Bytes(s)
    ensures Pad(TrimPadding(Encode(s))) == Encode(s)
  {
    var core, k, groups := EncodeShape(s);
    TrimPads(core, k);
    PadLength(|core|, k, groups);
    hide Encode, TrimPadding;
    assert Pad(core) == core + Padding(k);
  }

  /** The lenient decoder undoes the encoder. */
  lemma LenientRoundTrip(s: string)
    requires Bytes(s)
    ensures LenientDecode(Encode(s)) == Some(s)
  {
    var e := Encode(s);
    EncodeIsSafe(s);
    NothingToTrim(e);
    TrimmedPadsBack(s);
    NothingToStrip(e);
    GroupsRoundTrip(s);
    hide StripNewlines, Encode, Groups, TrimSpace, TrimPadding, Pad;
    if Groups(e, false, true).Some? {
      AlphabetsAgree(e, true);
    }
  }

  lemma EncodeGroup(a: char, b: char, c: char, rest: string)
    requires IsByte(a) && IsByte(b) && IsByte(c) && Bytes(rest)
    ensures Encode([a, b, c] + rest) == Group(a as int, b as int, c as int) + Encode(rest)
  {
    assert ([a, b, c] + rest)[3..] == rest;
  }

  /** The examples of section 10 of RFC 4648, and one that uses both special symbols. */
  lemma KnownEncodings()
    ensures Encode("") == "" && Encode("f") == "Zg==" && Encode("fo") == "Zm8=" && Encode("foo") == "Zm9v"
    ensures Encode("foobar") == "Zm9vYmFy" && Encode([251 as char, 255 as char]) == "-_8="
    ensures Decode("+/8=", false, true) == Some([251 as char, 255 as char])
    ensures Decode("-_8=", false, true).None? && Decode("+/8=", true, true).None?
  {
    KnownTails();
    KnownGroups();
    KnownDecodings();
    hide *;
  }

  lemma KnownTails()
    ensures Encode("") == "" && Encode("f") == "Zg==" && Encode("fo") == "Zm8="
    ensures Encode([251 as char, 255 as char]) == "-_8="
  {
    assert Group('f' as int, 0, 0)[..2] == "Zg" && Group('f' as int, 'o' as int, 0)[..3] == "Zm8";
    assert Group(251, 255, 0)[..3] == "-_8";
    assert Padding(2) == "==" && Padding(1) == "=";
    hide Group, Padding;
  }

  lemma KnownGroups()
    ensures Encode("foo") == "Zm9v" && Encode("foobar") == "Zm9vYmFy"
  {
    EncodeGroup('f', 'o', 'o', "");
    EncodeGroup('f', 'o', 'o', "bar");
    EncodeGroup('b', 'a', 'r', "");
    assert "foo" == ['f', 'o', 'o'] + "" && "foobar" == ['f', 'o', 'o'] + "bar" && "bar" == ['b', 'a', 'r'] + "";
    assert Group('f' as int, 'o' as int, 'o' as int) == "Zm9v" && Group('b' as int, 'a' as int, 'r' as int) == "YmFy";
    assert Encode("") == "";
    hide Encode, Group;
    assert "Zm9v" + "" == "Zm9v" && "Zm9v" + ("YmFy" + "") == "Zm9vYmFy";
  }

  lemma KnownDecodings()
    ensures Decode("+/8=", false, true) == Some([251 as char, 255 as char])
    ensures Decode("-_8=", false, true).None? && Decode("+/8=", true, true).None?
  {
    KnownValues();
    LastGroup("+/8=", false);
    LastGroup("-_8=", false);
    LastGroup("+/8=", true);
    hide *;
  }

  lemma KnownValues()
    ensures Value('+', false) == 62 && Value('/', false) == 63 && Value('8', false) == 60
    ensures Value('-', false) == -1 && Value('+', true) == -1
    ensures Whole(62, 63, 60, 0)[..2] == [251 as char, 255 as char]
  {}

  lemma LastGroup(s: string, urlSafe: bool)
    requires |s| == 4 && s[3] == '=' && s[2] != '=' && forall i :: 0 <= i < 4 ==> s[i] != '\r' && s[i] != '\n'
    ensures Decode(s, urlSafe, true) ==
      if Value(s[0], urlSafe) >= 0 && Value(s[1], urlSafe) >= 0 && Value(s[2], urlSafe) >= 0
      then Some(Whole(Value(s[0], urlSafe), Value(s[1], urlSafe), Value(s[2], urlSafe), 0)[..2]) else None
  {
    Unbroken(s);
    hide StripNewlines, Whole;
    assert !FullGroup(s, urlSafe) by { assert Value(s[3], urlSafe) < 0; }
    assert Groups(s, urlSafe, true) == Last(s, urlSafe, true);
  }

  lemma Unbroken(s: string)
    requires |s| == 4 && forall i :: 0 <= i < 4 ==> s[i] != '\r' && s[i] != '\n'
    ensures StripNewlines(s) == s
  {
    assert s == [s[0]] + ([s[1]] + ([s[2]] + [s[3]]));
    assert s[1..][1..][1..] == [s[3]] && s[1..][1..][1..][1..] == "";
    assert StripNewlines(s[1..][1..][1..]) == [s[3]];
    assert StripNewlines(s[1..][1..]) == [s[2]] + [s[3]];
  }
}
