/**
 The two base64url codecs: static/app-http-webauthn.js:1-15 on top of the browser's btoa and
 atob, and src/util.rs:24-33 on top of a strict decoder.  The alphabets are those of
 sections 4 and 5 of RFC 4648.
 */
module Base64Url {
  import opened Wrappers

  type Byte = n: int | 0 <= n < 256
  type Sextet = n: int | 0 <= n < 64

  // ---- Sextets: what both codecs put into characters ----

  function Sextets(bytes: seq<Byte>): seq<Sextet> {
    if bytes == [] then []
    else if |bytes| == 1 then [bytes[0] / 4, bytes[0] % 4 * 16]
    else if |bytes| == 2 then [bytes[0] / 4, bytes[0] % 4 * 16 + bytes[1] / 16, bytes[1] % 16 * 4]
    else
      [bytes[0] / 4, bytes[0] % 4 * 16 + bytes[1] / 16, bytes[1] % 16 * 4 + bytes[2] / 64, bytes[2] % 64]
      + Sextets(bytes[3..])
  }

  function FirstByte(a: int, b: int): Byte
    requires 0 <= a < 64 && 0 <= b < 64
  {
    a * 4 + b / 16
  }

  function SecondByte(b: int, c: int): Byte
    requires 0 <= b < 64 && 0 <= c < 64
  {
    b % 16 * 16 + c / 4
  }

  function ThirdByte(c: int, d: int): Byte
    requires 0 <= c < 64 && 0 <= d < 64
  {
    c % 4 * 64 + d
  }

  /** Whole bytes only: the bits left over at the end are dropped. */
  function Bytes(q: seq<Sextet>): seq<Byte> {
    if |q| < 2 then []
    else if |q| == 2 then [FirstByte(q[0], q[1])]
    else if |q| == 3 then [FirstByte(q[0], q[1]), SecondByte(q[1], q[2])]
    else [FirstByte(q[0], q[1]), SecondByte(q[1], q[2]), ThirdByte(q[2], q[3])] + Bytes(q[4..])
  }

  /** The bits that `Bytes` drops. */
  function LeftOver(q: seq<Sextet>): nat {
    if |q| >= 4 then LeftOver(q[4..]) else if |q| == 3 then q[2] % 4 else if |q| == 2 then q[1] % 16 else 0
  }

  lemma GroupPacks(x: int, y: int, z: int)
    requires 0 <= x < 256 && 0 <= y < 256 && 0 <= z < 256
    ensures FirstByte(x / 4, x % 4 * 16) == x
    ensures FirstByte(x / 4, x % 4 * 16 + y / 16) == x
    ensures SecondByte(x % 4 * 16 + y / 16, y % 16 * 4) == y
    ensures SecondByte(x % 4 * 16 + y / 16, y % 16 * 4 + z / 64) == y
    ensures ThirdByte(y % 16 * 4 + z / 64, z % 64) == z
  {}

  lemma BytesOfGroup(q: seq<Sextet>, bytes: seq<Byte>)
    requires |q| >= 4 && |bytes| >= 3
    requires FirstByte(q[0], q[1]) == bytes[0] && SecondByte(q[1], q[2]) == bytes[1]
    requires ThirdByte(q[2], q[3]) == bytes[2]
    requires Bytes(q[4..]) == bytes[3..]
    ensures Bytes(q) == bytes
  {
    assert bytes == [bytes[0], bytes[1], bytes[2]] + bytes[3..];
  }

  lemma OnePacks(x: Byte)
    ensures Bytes([x / 4, x % 4 * 16]) == [x]
  {
    GroupPacks(x, 0, 0);
  }

  lemma TwoPack(x: Byte, y: Byte)
    ensures Bytes([x / 4, x % 4 * 16 + y / 16, y % 16 * 4]) == [x, y]
  {
    GroupPacks(x, y, 0);
  }

  lemma GroupThenBytes(bytes: seq<Byte>, q: seq<Sextet>)
    requires |bytes| >= 3 && q == Sextets(bytes) && Bytes(Sextets(bytes[3..])) == bytes[3..]
    ensures Bytes(q) == bytes
  {
    assert q[4..] == Sextets(bytes[3..]);
    GroupPacks(bytes[0], bytes[1], bytes[2]);
    BytesOfGroup(q, bytes);
  }

  lemma {:induction false} SextetsThenBytes(bytes: seq<Byte>)
    ensures Bytes(Sextets(bytes)) == bytes
  {
    if |bytes| >= 3 {
      SextetsThenBytes(bytes[3..]);
      GroupThenBytes(bytes, Sextets(bytes));
    } else if |bytes| == 2 {
      TwoPack(bytes[0], bytes[1]);
    } else if |bytes| == 1 {
      OnePacks(bytes[0]);
    }
  }

  /** An encoding has no bits left over, and never one sextet more than a multiple of four. */
  lemma {:induction false} NothingLeftOver(bytes: seq<Byte>)
    ensures LeftOver(Sextets(bytes)) == 0 && |Sextets(bytes)| % 4 != 1
  {
    if |bytes| >= 3 {
      NothingLeftOver(bytes[3..]);
      assert Sextets(bytes)[4..] == Sextets(bytes[3..]);
    }
  }

  lemma GroupUnpacks(a: int, b: int, c: int, d: int)
    requires 0 <= a < 64 && 0 <= b < 64 && 0 <= c < 64 && 0 <= d < 64
    ensures FirstByte(a, b) / 4 == a
    ensures FirstByte(a, b) % 4 * 16 + SecondByte(b, c) / 16 == b
    ensures SecondByte(b, c) % 16 * 4 + ThirdByte(c, d) / 64 == c
    ensures ThirdByte(c, d) % 64 == d
    ensures b % 16 == 0 ==> FirstByte(a, b) % 4 * 16 == b
    ensures c % 4 == 0 ==> SecondByte(b, c) % 16 * 4 == c
  {}

  lemma {:induction false} BytesThenSextets(q: seq<Sextet>)
    requires |q| % 4 != 1 && LeftOver(q) == 0
    ensures Sextets(Bytes(q)) == q
  {
    if |q| >= 4 {
      BytesThenSextets(q[4..]);
      GroupUnpacks(q[0], q[1], q[2], q[3]);
      SextetsOfGroup(FirstByte(q[0], q[1]), SecondByte(q[1], q[2]), ThirdByte(q[2], q[3]), Bytes(q[4..]), q);
    } else if |q| == 3 {
      GroupUnpacks(q[0], q[1], q[2], 0);
    } else if |q| == 2 {
      GroupUnpacks(q[0], q[1], 0, 0);
    }
  }

  lemma SextetsOfGroup(x: Byte, y: Byte, z: Byte, rest: seq<Byte>, q: seq<Sextet>)
    requires |q| >= 4
    requires x / 4 == q[0] && x % 4 * 16 + y / 16 == q[1] && y % 16 * 4 + z / 64 == q[2] && z % 64 == q[3]
    requires Sextets(rest) == q[4..]
    ensures Sextets([x, y, z] + rest) == q
  {
    assert ([x, y, z] + rest)[3..] == rest;
    assert q == [q[0], q[1], q[2], q[3]] + q[4..];
  }

  // ---- Alphabets ----

  function SymbolOf(i: Sextet, c62: char, c63: char): char {
    if i < 26 then 'A' + i as char
    else if i < 52 then 'a' + (i - 26) as char
    else if i < 62 then '0' + (i - 52) as char
    else if i == 62 then c62
    else c63
  }

  function SextetOf(c: char, c62: char, c63: char): Option<Sextet> {
    if 'A' <= c <= 'Z' then Some(c as int - 'A' as int)
    else if 'a' <= c <= 'z' then Some(c as int - 'a' as int + 26)
    else if '0' <= c <= '9' then Some(c as int - '0' as int + 52)
    else if c == c62 then Some(62)
    else if c == c63 then Some(63)
    else None
  }

  function UrlSymbol(i: Sextet): char { SymbolOf(i, '-', '_') }

  function StandardSymbol(i: Sextet): char { SymbolOf(i, '+', '/') }

  function UrlSextet(c: char): Option<Sextet> { SextetOf(c, '-', '_') }

  function StandardSextet(c: char): Option<Sextet> { SextetOf(c, '+', '/') }

  function SymbolIn(i: Sextet, url: bool): char {
    if url then UrlSymbol(i) else StandardSymbol(i)
  }

  /** The text of these sextets; `url` picks the alphabet. */
  function Symbols(q: seq<Sextet>, url: bool): (r: string)
    ensures |r| == |q|
    ensures forall i | 0 <= i < |q| :: r[i] == SymbolIn(q[i], url)
  {
    seq(|q|, i requires 0 <= i < |q| => SymbolIn(q[i], url))
  }

  function ReadSymbols(s: string, url: bool): Option<seq<Sextet>> {
    if s == "" then Some([])
    else
      var first := if url then UrlSextet(s[0]) else StandardSextet(s[0]);
      var rest := ReadSymbols(s[1..], url);
      if first.None? || rest.None? then None else Some([first.value] + rest.value)
  }

  lemma {:induction false} ReadOwnSymbols(q: seq<Sextet>, url: bool)
    ensures ReadSymbols(Symbols(q, url), url) == Some(q)
  {
    if q != [] {
      ReadOwnSymbols(q[1..], url);
      SymbolIff(SymbolIn(q[0], url), q[0]);
      assert Symbols(q, url)[1..] == Symbols(q[1..], url);
      assert q == [q[0]] + q[1..];
    }
  }

  lemma {:induction false} ReadIsOwnSymbols(s: string, url: bool)
    ensures ReadSymbols(s, url).Some? ==> Symbols(ReadSymbols(s, url).value, url) == s
  {
    if s != "" && ReadSymbols(s, url).Some? {
      ReadIsOwnSymbols(s[1..], url);
      var q := ReadSymbols(s, url).value;
      SymbolIff(s[0], q[0]);
      assert q[1..] == ReadSymbols(s[1..], url).value;
      SymbolsCons(q, url);
    }
  }

  lemma SymbolsCons(q: seq<Sextet>, url: bool)
    requires q != []
    ensures Symbols(q, url) == [SymbolIn(q[0], url)] + Symbols(q[1..], url)
  {}

  lemma ReadSymbolsIff(s: string, q: seq<Sextet>, url: bool)
    ensures ReadSymbols(s, url) == Some(q) <==> s == Symbols(q, url)
  {
    ReadOwnSymbols(q, url);
    ReadIsOwnSymbols(s, url);
  }

  lemma SymbolIff(c: char, i: Sextet)
    ensures UrlSextet(c) == Some(i) <==> c == UrlSymbol(i)
    ensures StandardSextet(c) == Some(i) <==> c == StandardSymbol(i)
  {}

  /** Four sextets and the three bytes they are made of are the same number of 24 bits, the first bits first. */
  lemma GroupValue(x: Byte, y: Byte, z: Byte)
    ensures var q := Sextets([x, y, z]);
            |q| == 4 && ((q[0] as int * 64 + q[1] as int) * 64 + q[2] as int) * 64 + q[3] as int
                        == (x as int * 256 + y as int) * 256 + z as int
  {
    assert [x, y, z][3..] == [];
    assert x == x / 4 * 4 + x % 4 && y == y / 16 * 16 + y % 16 && z == z / 64 * 64 + z % 64;
  }

  // ---- The gateway's codec ----

  function Encode(bytes: seq<Byte>): string {
    Symbols(Sextets(bytes), true)
  }

  lemma SpelledAs(bytes: seq<Byte>, q: seq<Sextet>, text: string)
    requires Sextets(bytes) == q && |text| == |q| && forall i | 0 <= i < |q| :: text[i] == UrlSymbol(q[i])
    ensures Encode(bytes) == text
  {}

  /** A test vector of section 10 of RFC 4648, and a text with the last two symbols of section 5. */
  lemma KnownTexts()
    ensures Encode([102, 111, 111, 98, 97]) == "Zm9vYmE"
    ensures Encode([251, 255]) == "-_8"
  {
    FoobaSextets();
    SpelledAs([102, 111, 111, 98, 97], [25, 38, 61, 47, 24, 38, 4], "Zm9vYmE");
    SpelledAs([251, 255], [62, 63, 60], "-_8");
  }

  lemma FoobaSextets()
    ensures Sextets([102, 111, 111, 98, 97]) == [25, 38, 61, 47, 24, 38, 4]
  {
    assert [102, 111, 111, 98, 97][3..] == [98, 97];
    assert Sextets([98, 97]) == [24, 38, 4];
  }

  function DecodeNoPad(s: string): Option<seq<Byte>> {
    var q := ReadSymbols(s, true);
    if q.None? || |q.value| % 4 == 1 || LeftOver(q.value) != 0 then None else Some(Bytes(q.value))
  }

  /** How many '=' complete a text of this length to a multiple of four, unless none can (length 1 modulo 4). */
  function Missing(n: nat): nat {
    if n % 4 == 2 then 2 else if n % 4 == 3 then 1 else 0
  }

  function Equals(n: nat): (r: string)
    ensures |r| == n && forall i | 0 <= i < n :: r[i] == '='
  {
    seq(n, _ => '=')
  }

  /** The '=' signs at the end, at most two. */
  function Trailing(s: string): nat {
    if |s| >= 1 && s[|s| - 1] == '=' then
      if |s| >= 2 && s[|s| - 2] == '=' then 2 else 1
    else 0
  }

  function DecodePadded(s: string): Option<seq<Byte>> {
    var body := s[..|s| - Trailing(s)];
    if Missing(|body|) == Trailing(s) then DecodeNoPad(body) else None
  }

  function Decode(s: string): Option<seq<Byte>> {
    if DecodeNoPad(s).Some? then DecodeNoPad(s) else DecodePadded(s)
  }

  /** The unpadded decoder accepts exactly the encodings. */
  lemma DecodeNoPadIff(s: string, bytes: seq<Byte>)
    ensures DecodeNoPad(s) == Some(bytes) <==> s == Encode(bytes)
  {
    ReadSymbolsIff(s, Sextets(bytes), true);
    SextetsThenBytes(bytes);
    NothingLeftOver(bytes);
    if DecodeNoPad(s) == Some(bytes) {
      var q := ReadSymbols(s, true).value;
      BytesThenSextets(q);
    }
  }

  function PaddedEncode(bytes: seq<Byte>): string {
    Encode(bytes) + Equals(Missing(|Encode(bytes)|))
  }

  lemma NoEqualsInside(bytes: seq<Byte>)
    ensures forall i | 0 <= i < |Encode(bytes)| :: Encode(bytes)[i] != '='
  {
    forall i | 0 <= i < |Encode(bytes)| ensures Encode(bytes)[i] != '=' {
      SymbolIff('=', Sextets(bytes)[i]);
    }
  }

  lemma DecodePaddedIff(s: string, bytes: seq<Byte>)
    ensures DecodePadded(s) == Some(bytes) <==> s == PaddedEncode(bytes)
  {
    var k := Trailing(s);
    var body := s[..|s| - k];
    DecodeNoPadIff(body, bytes);
    assert s == body + Equals(k);
    if s == PaddedEncode(bytes) {
      var text := Encode(bytes);
      NoEqualsInside(bytes);
      TrailingOfPadded(text, Missing(|text|));
      assert body == text;
    }
  }

  lemma TrailingOfPadded(text: string, n: nat)
    requires n <= 2 && (text != "" ==> text[|text| - 1] != '=') && (text == "" ==> n == 0)
    ensures Trailing(text + Equals(n)) == n
  {
    var s := text + Equals(n);
    if n > 0 {
      assert s[|s| - 1] == Equals(n)[n - 1];
      if n == 2 {
        assert s[|s| - 2] == Equals(n)[0];
      } else {
        assert s[|s| - 2] == text[|text| - 1];
      }
    } else {
      assert s == text;
    }
  }

  lemma UnpaddedIsPlain(s: string, text: string, n: nat)
    requires forall i | 0 <= i < |s| :: s[i] != '='
    ensures s == text + Equals(n) ==> s == text
  {
    EqualsFollow(text, n);
  }

  lemma EqualsFollow(text: string, n: nat)
    ensures if n == 0 then text + Equals(n) == text else (text + Equals(n))[|text|] == '='
  {}

  /**
   The gateway reads an encoding, with its padding or without, as the bytes it was made from, and reads
   nothing else.
   */
  lemma DecodeIff(s: string, bytes: seq<Byte>)
    ensures Decode(s) == Some(bytes) <==> s == Encode(bytes) || s == PaddedEncode(bytes)
  {
    DecodeNoPadIff(s, bytes);
    DecodePaddedIff(s, bytes);
    if DecodeNoPad(s).Some? {
      var other := DecodeNoPad(s).value;
      DecodeNoPadIff(s, other);
      NoEqualsInside(other);
      UnpaddedIsPlain(s, Encode(bytes), Missing(|Encode(bytes)|));
    }
  }

  // ---- The browser's codec ----

  predicate AsciiSpace(c: char) {
    c == '\t' || c == '\n' || c == 12 as char || c == '\r' || c == ' '
  }

  function WithoutSpace(s: string): string {
    if s == "" then "" else (if AsciiSpace(s[0]) then "" else [s[0]]) + WithoutSpace(s[1..])
  }

  /** The browser's atob: the forgiving base64 decoder of the WHATWG Infra standard. */
  function Atob(s: string): Option<seq<Byte>> {
    AtobText(WithoutPadding(WithoutSpace(s)))
  }

  function WithoutPadding(plain: string): string {
    if |plain| % 4 == 0 then plain[..|plain| - Trailing(plain)] else plain
  }

  function AtobText(text: string): Option<seq<Byte>> {
    var q := ReadSymbols(text, false);
    if |text| % 4 == 1 || q.None? then None else Some(Bytes(q.value))
  }

  lemma WithoutSpaceCons(c: char, rest: string, s: string)
    requires s == [c] + rest
    ensures WithoutSpace(s) == (if AsciiSpace(c) then "" else [c]) + WithoutSpace(rest)
  {
    assert s[1..] == rest;
  }

  lemma {:induction false} SpaceIsStripped(a: string, c: char, b: string)
    requires c == '\t' || c == '\n' || c == 12 as char || c == '\r' || c == ' '
    ensures WithoutSpace(a + [c] + b) == WithoutSpace(a + b)
  {
    if a == "" {
      assert a + [c] + b == [c] + b && a + b == b;
      WithoutSpaceCons(c, b, [c] + b);
      assert "" + WithoutSpace(b) == WithoutSpace(b);
    } else {
      var rest := a[1..];
      SpaceIsStripped(rest, c, b);
      assert a + [c] + b == [a[0]] + (rest + [c] + b) && a + b == [a[0]] + (rest + b);
      WithoutSpaceCons(a[0], rest + [c] + b, a + [c] + b);
      WithoutSpaceCons(a[0], rest + b, a + b);
    }
  }

  /** A tab, line feed, form feed, carriage return or space makes no difference to atob, wherever it stands. */
  lemma AtobSkipsSpaces(a: string, c: char, b: string)
    requires c == '\t' || c == '\n' || c == 12 as char || c == '\r' || c == ' '
    ensures Atob(a + [c] + b) == Atob(a + b)
  {
    SpaceIsStripped(a, c, b);
  }

  /** The browser's btoa of the string whose characters have these codes. */
  function Btoa(bytes: seq<Byte>): string {
    var text := Symbols(Sextets(bytes), false);
    text + Equals(Missing(|text|))
  }

  function ReplaceAll(s: string, from: char, to: char): (r: string)
    ensures |r| == |s| && forall i | 0 <= i < |s| :: r[i] == if s[i] == from then to else s[i]
  {
    seq(|s|, i requires 0 <= i < |s| => if s[i] == from then to else s[i])
  }

  function WithoutEquals(s: string): string {
    if s != "" && s[|s| - 1] == '=' then WithoutEquals(s[..|s| - 1]) else s
  }

  /** What the source appends: "===" from this index on. */
  function Completion(n: nat): string {
    "==="[(n + 3) % 4..]
  }

  function Standard(s: string): (r: string)
    ensures |r| == |s|
  {
    ReplaceAll(ReplaceAll(s, '-', '+'), '_', '/')
  }

  function Completed(s: string): string {
    Standard(s) + Completion(|s|)
  }

  function JsDecode(s: string): Option<seq<Byte>> {
    Atob(Completed(s))
  }

  function Codes(binary: string): seq<Byte>
    requires forall i | 0 <= i < |binary| :: binary[i] as int < 256
  {
    seq(|binary|, i requires 0 <= i < |binary| => binary[i] as int)
  }

  function Binary(bytes: seq<Byte>): (r: string)
    ensures |r| == |bytes| && forall i | 0 <= i < |r| :: r[i] as int == bytes[i]
  {
    seq(|bytes|, i requires 0 <= i < |bytes| => bytes[i] as char)
  }

  /** The appended '=' always complete a multiple of four, and are the missing ones unless none can be right. */
  lemma CompletionCompletes(n: nat)
    ensures (n + |Completion(n)|) % 4 == 0
    ensures n % 4 != 1 ==> Completion(n) == Equals(Missing(n))
    ensures n % 4 == 1 ==> Completion(n) == "==="
  {
    if n % 4 == 0 {
      assert (n + 3) % 4 == 3;
    } else if n % 4 == 1 {
      assert (n + 3) % 4 == 0;
    } else if n % 4 == 2 {
      assert (n + 3) % 4 == 1;
    } else {
      assert (n + 3) % 4 == 2;
    }
  }

  lemma {:induction false} NothingToStrip(s: string)
    requires forall i | 0 <= i < |s| :: !AsciiSpace(s[i])
    ensures WithoutSpace(s) == s
  {
    if s != "" {
      NothingToStrip(s[1..]);
      assert s == [s[0]] + s[1..];
    }
  }

  lemma {:induction false} EqualsAreStripped(s: string, n: nat)
    requires s == "" || s[|s| - 1] != '='
    ensures WithoutEquals(s + Equals(n)) == s
  {
    if n > 0 {
      EqualsAreStripped(s, n - 1);
      assert (s + Equals(n))[..|s| + n - 1] == s + Equals(n - 1);
    } else {
      assert s + Equals(0) == s;
    }
  }

  lemma StandardIsPlain(q: seq<Sextet>)
    ensures forall i | 0 <= i < |q| :: !AsciiSpace(Symbols(q, false)[i]) && Symbols(q, false)[i] != '='
    ensures Standard(Symbols(q, true)) == Symbols(q, false)
    ensures ReplaceAll(ReplaceAll(Symbols(q, false), '+', '-'), '/', '_') == Symbols(q, true)
  {}

  /** The browser reads a text in the standard alphabet with its padding. */
  lemma AtobReads(bytes: seq<Byte>)
    ensures Atob(Btoa(bytes)) == Some(bytes)
  {
    var q := Sextets(bytes);
    var text := Symbols(q, false);
    StandardIsPlain(q);
    ReadSymbolsIff(text, q, false);
    SextetsThenBytes(bytes);
    NothingLeftOver(bytes);
    AtobOfPadded(text);
  }

  lemma AtobOfPadded(text: string)
    requires forall i | 0 <= i < |text| :: !AsciiSpace(text[i]) && text[i] != '='
    requires |text| % 4 != 1
    ensures Atob(text + Equals(Missing(|text|))) == AtobText(text)
  {
    var n := Missing(|text|);
    var padded := text + Equals(n);
    NothingToStrip(padded);
    TrailingOfPadded(text, n);
    MissingCompletes(|text|);
    assert padded[..|padded| - n] == text;
  }

  lemma MissingCompletes(n: nat)
    requires n % 4 != 1
    ensures (n + Missing(n)) % 4 == 0
  {}

  lemma ReplacedWithEquals(s: string, n: nat)
    ensures Standard(s + Equals(n)) == Standard(s) + Equals(n)
  {}

  /** Whatever the gateway accepts, the browser reads as the same bytes. */
  lemma BrowserReadsWhatGatewayReads(s: string, bytes: seq<Byte>)
    requires Decode(s) == Some(bytes)
    ensures JsDecode(s) == Some(bytes)
  {
    DecodeIff(s, bytes);
    AtobReads(bytes);
    if s == Encode(bytes) {
      CompletedEncoding(bytes);
    } else {
      CompletedPadded(bytes);
    }
  }

  lemma CompletedEncoding(bytes: seq<Byte>)
    ensures Completed(Encode(bytes)) == Btoa(bytes)
  {
    StandardIsPlain(Sextets(bytes));
    NothingLeftOver(bytes);
    CompletionCompletes(|Sextets(bytes)|);
  }

  lemma CompletedPadded(bytes: seq<Byte>)
    ensures Completed(PaddedEncode(bytes)) == Btoa(bytes)
  {
    var q := Sextets(bytes);
    var s := PaddedEncode(bytes);
    StandardIsPlain(q);
    ReplacedWithEquals(Encode(bytes), Missing(|q|));
    NothingLeftOver(bytes);
    MissingCompletes(|q|);
    NothingToComplete(|s|);
    assert Btoa(bytes) + "" == Btoa(bytes);
  }

  lemma NothingToComplete(n: nat)
    requires n % 4 == 0
    ensures Completion(n) == ""
  {
    CompletionCompletes(n);
  }

  /** Bytes survive the browser's encoder followed by either decoder. */
  lemma RoundTrip(bytes: seq<Byte>)
    ensures Decode(Encode(bytes)) == Some(bytes) && JsDecode(Encode(bytes)) == Some(bytes)
  {
    DecodeIff(Encode(bytes), bytes);
    BrowserReadsWhatGatewayReads(Encode(bytes), bytes);
  }

  /** But the browser also reads texts the gateway refuses: it drops bits left over at the end. */
  lemma BrowserIsLaxer()
    ensures JsDecode("AB") == Some([0]) && Decode("AB") == None
  {
    var text := "AB";
    SpelledAB();
    assert text[..2] == text;
    CompletionCompletes(2);
    AtobOfPadded(text);
    assert Completed(text) == text + Equals(2);
    OneByteLeft();
  }

  lemma OneByteLeft()
    ensures Bytes([0, 1]) == [0] && LeftOver([0, 1]) == 1
  {}

  lemma SpelledAB()
    ensures ReadSymbols("AB", true) == Some([0, 1]) && ReadSymbols("AB", false) == Some([0, 1])
  {
    SymbolIff('A', 0);
    SymbolIff('B', 1);
    ReadSymbolsIff("AB", [0, 1], true);
    ReadSymbolsIff("AB", [0, 1], false);
  }

  // ---- Which texts only the browser reads ----

  /** Blanks, which the browser skips, and the two symbols of the standard alphabet. */
  predicate Foreign(c: char) {
    c == '\t' || c == '\n' || c == 12 as char || c == '\r' || c == ' ' || c == '+' || c == '/'
  }

  predicate HasForeign(s: string) {
    exists i | 0 <= i < |s| :: Foreign(s[i])
  }

  /** Bits are left over at the end of the text. */
  predicate Dangling(text: string) {
    ReadSymbols(text, true).Some? && LeftOver(ReadSymbols(text, true).value) != 0
  }

  /** The text ends with some '=', but not with the number that completes it. */
  predicate HalfPadded(s: string) {
    var text := WithoutEquals(s);
    |text| != |s| && |text| + Missing(|text|) != |s|
  }

  lemma {:induction false} StripFacts(s: string)
    ensures var text := WithoutEquals(s);
            && |text| <= |s|
            && s == text + Equals(|s| - |text|)
            && (text != "" ==> text[|text| - 1] != '=')
  {
    if s != "" && s[|s| - 1] == '=' {
      StripFacts(s[..|s| - 1]);
      var text := WithoutEquals(s);
      assert Equals(|s| - |text|) == Equals(|s| - 1 - |text|) + "=";
      assert s == s[..|s| - 1] + "=";
    } else {
      assert s + Equals(0) == s;
    }
  }

  lemma EncodingIsOwn(bytes: seq<Byte>, k: nat)
    ensures !HasForeign(Encode(bytes) + Equals(k))
    ensures WithoutEquals(Encode(bytes) + Equals(k)) == Encode(bytes)
  {
    var q := Sextets(bytes);
    forall i | 0 <= i < |q| ensures !Foreign(Encode(bytes)[i]) {
      UrlSymbolIsOwn(q[i]);
    }
    NoEqualsInside(bytes);
    EqualsAreStripped(Encode(bytes), k);
  }

  lemma UrlSymbolIsOwn(i: Sextet)
    ensures !Foreign(UrlSymbol(i)) && UrlSymbol(i) != '='
  {}

  /** What the gateway reads has nothing foreign, no half padding and no bits left over. */
  lemma GatewayText(s: string)
    requires Decode(s).Some?
    ensures !HasForeign(s) && !HalfPadded(s) && !Dangling(WithoutEquals(s))
  {
    var bytes := Decode(s).value;
    DecodeIff(s, bytes);
    var text := Encode(bytes);
    assert text + Equals(0) == text;
    EncodingIsOwn(bytes, 0);
    EncodingIsOwn(bytes, Missing(|text|));
    ReadOwnSymbols(Sextets(bytes), true);
    NothingLeftOver(bytes);
  }

  /** A text without foreign characters is in the url alphabet if its replacement is in the standard one. */
  lemma StandardReadsBack(text: string, q: seq<Sextet>)
    requires !HasForeign(text) && ReadSymbols(Standard(text), false) == Some(q)
    ensures ReadSymbols(text, true) == Some(q)
  {
    ReadSymbolsIff(Standard(text), q, false);
    forall i | 0 <= i < |text| ensures text[i] == UrlSymbol(q[i]) {
      assert !Foreign(text[i]);
      assert Standard(text)[i] == StandardSymbol(q[i]);
      ReplacedSymbol(text[i], q[i]);
    }
    ReadSymbolsIff(text, q, true);
  }

  lemma ReplacedSymbol(c: char, i: Sextet)
    requires !Foreign(c)
    requires (if c == '-' then '+' else if c == '_' then '/' else c) == StandardSymbol(i)
    ensures c == UrlSymbol(i)
  {}

  lemma CompletionIsEquals(n: nat)
    ensures Completion(n) == Equals(|Completion(n)|)
  {}

  lemma EqualsJoin(text: string, a: nat, b: nat)
    ensures text + Equals(a) + Equals(b) == text + Equals(a + b)
  {}

  /** How many '=' the completed text ends with. */
  function CompletedEquals(s: string): nat {
    StripFacts(s);
    |s| - |WithoutEquals(s)| + |Completion(|s|)|
  }

  lemma JoinCompletion(whole: string, body: string, m: nat, n: nat)
    requires whole == body + Equals(m)
    ensures whole + Completion(n) == body + Equals(m + |Completion(n)|)
  {
    CompletionIsEquals(n);
    EqualsJoin(body, m, |Completion(n)|);
  }

  /** The completed text is the replaced body and '=' signs. */
  lemma CompletedBody(s: string)
    ensures Completed(s) == Standard(WithoutEquals(s)) + Equals(CompletedEquals(s))
  {
    var text := WithoutEquals(s);
    StripFacts(s);
    var m := |s| - |text|;
    ReplacedWithEquals(text, m);
    JoinCompletion(Standard(s), Standard(text), m, |s|);
  }

  lemma CompletedLength(s: string)
    ensures (|WithoutEquals(s)| + CompletedEquals(s)) % 4 == 0
  {
    CompletionCompletes(|s|);
  }

  /** What atob reads of a text without blanks whose length is a multiple of four. */
  lemma AtobOfMultiple(whole: string)
    requires WithoutSpace(whole) == whole && |whole| % 4 == 0
    ensures Atob(whole) == AtobText(whole[..|whole| - Trailing(whole)])
  {}

  lemma PlainStandard(text: string, k: nat)
    requires !HasForeign(text) && (text != "" ==> text[|text| - 1] != '=')
    ensures WithoutSpace(Standard(text) + Equals(k)) == Standard(text) + Equals(k)
    ensures text != "" ==> Standard(text)[|text| - 1] != '='
  {
    assert forall i | 0 <= i < |text| :: !Foreign(text[i]);
    NothingToStrip(Standard(text) + Equals(k));
  }

  lemma {:induction false} EqualsIsNoSymbol(s: string)
    requires s != "" && s[|s| - 1] == '='
    ensures ReadSymbols(s, false).None?
  {
    if |s| > 1 {
      EqualsIsNoSymbol(s[1..]);
    }
  }

  lemma ManyEqualsTrail(text: string, k: nat)
    requires k > 2
    ensures var whole := text + Equals(k);
            Trailing(whole) == 2 && whole[..|whole| - 2] == text + Equals(k - 2)
  {
    var whole := text + Equals(k);
    assert whole[|whole| - 1] == Equals(k)[k - 1] && whole[|whole| - 2] == Equals(k)[k - 2];
  }

  /** More than two '=' leave one in the text that atob reads. */
  lemma TooManyEquals(whole: string, text: string, k: nat)
    requires whole == text + Equals(k) && k > 2
    requires |whole| % 4 == 0 && WithoutSpace(whole) == whole
    ensures Atob(whole).None?
  {
    AtobOfMultiple(whole);
    ManyEqualsTrail(text, k);
    EndsWithEquals(text, k - 2);
    EqualsIsNoSymbol(text + Equals(k - 2));
    NoTextNoBytes(text + Equals(k - 2));
  }

  lemma NoTextNoBytes(text: string)
    requires ReadSymbols(text, false).None?
    ensures AtobText(text).None?
  {}

  lemma EndsWithEquals(text: string, k: nat)
    requires k > 0
    ensures var whole := text + Equals(k); whole != "" && whole[|whole| - 1] == '='
  {
    assert (text + Equals(k))[|text| + k - 1] == Equals(k)[k - 1];
  }

  lemma BodyNotForeign(s: string)
    requires !HasForeign(s)
    ensures !HasForeign(WithoutEquals(s))
  {
    StripFacts(s);
    var text := WithoutEquals(s);
    forall i | 0 <= i < |text| ensures !Foreign(text[i]) {
      assert s[i] == text[i];
    }
  }

  /** What the browser reads without foreign characters is a text of the url alphabet that could be completed. */
  lemma BrowserText(s: string)
    requires JsDecode(s).Some? && !HasForeign(s)
    ensures ReadSymbols(WithoutEquals(s), true).Some? && |WithoutEquals(s)| % 4 != 1
  {
    var text, k := WithoutEquals(s), CompletedEquals(s);
    StripFacts(s);
    BodyNotForeign(s);
    CompletedBody(s);
    CompletedLength(s);
    PlainStandard(text, k);
    if k > 2 {
      TooManyEquals(Completed(s), Standard(text), k);
    }
    TextRead(Completed(s), text, k);
  }

  lemma TextRead(whole: string, text: string, k: nat)
    requires whole == Standard(text) + Equals(k) && k <= 2 && |whole| % 4 == 0 && WithoutSpace(whole) == whole
    requires !HasForeign(text) && (text != "" ==> Standard(text)[|text| - 1] != '=')
    requires Atob(whole).Some?
    ensures ReadSymbols(text, true).Some? && |text| % 4 != 1
  {
    AtobOfMultiple(whole);
    BodyOfWhole(whole, Standard(text), k);
    StandardReadsBack(text, ReadSymbols(Standard(text), false).value);
  }

  lemma BodyOfWhole(whole: string, body: string, k: nat)
    requires whole == body + Equals(k) && k <= 2 && |whole| % 4 == 0
    requires body != "" ==> body[|body| - 1] != '='
    ensures whole[..|whole| - Trailing(whole)] == body
  {
    TrailingOfPadded(body, k);
  }

  /** A url text of possible length without bits left over, completed or not, is read by the gateway. */
  lemma GatewayReads(s: string)
    requires var text := WithoutEquals(s);
             ReadSymbols(text, true).Some? && |text| % 4 != 1 && !Dangling(text) && !HalfPadded(s)
    ensures Decode(s).Some?
  {
    var text := WithoutEquals(s);
    var bytes := Bytes(ReadSymbols(text, true).value);
    StripFacts(s);
    ReadIsOwnSymbols(text, true);
    DecodeNoPadIff(text, bytes);
    assert text + Equals(0) == text;
    DecodeIff(s, bytes);
  }

  /**
   Of the texts that the browser reads, the gateway refuses exactly those with a blank, a '+' or a '/', those
   with a number of '=' at the end that does not complete them, and those with bits left over.
   */
  lemma OnlyBrowserReadsIff(s: string)
    requires JsDecode(s).Some?
    ensures Decode(s) == None <==> HasForeign(s) || HalfPadded(s) || Dangling(WithoutEquals(s))
  {
    if Decode(s).Some? {
      GatewayText(s);
    }
    if !HasForeign(s) && !HalfPadded(s) && !Dangling(WithoutEquals(s)) {
      BrowserText(s);
      GatewayReads(s);
    }
  }

  method BufferToB64url(buffer: array<Byte>) returns (text: string)
    ensures text == Encode(buffer[..])
  {
    var binary := "";
    for i := 0 to buffer.Length
      invariant binary == Binary(buffer[..i])
    {
      binary := binary + [buffer[i] as char];
    }
    assert buffer[..] == buffer[..buffer.Length];
    assert Codes(binary) == buffer[..];
    var b64 := Btoa(Codes(binary));
    text := WithoutEquals(ReplaceAll(ReplaceAll(b64, '+', '-'), '/', '_'));
    ghost var q := Sextets(buffer[..]);
    StandardIsPlain(q);
    NoEqualsInside(buffer[..]);
    assert ReplaceAll(ReplaceAll(b64, '+', '-'), '/', '_') == Symbols(q, true) + Equals(Missing(|q|));
    EqualsAreStripped(Symbols(q, true), Missing(|q|));
  }

  /** `ok` is false where atob throws. */
  method B64urlToBuffer(s: string) returns (ok: bool, out: array<Byte>)
    ensures ok <==> JsDecode(s).Some?
    ensures ok ==> out[..] == JsDecode(s).value
  {
    var decoded := Atob(Completed(s));
    if decoded.None? {
      out := new Byte[0];
      return false, out;
    }
    var binary := Binary(decoded.value);
    out := new Byte[|binary|];
    for i := 0 to |binary|
      invariant forall k | 0 <= k < i :: out[k] == decoded.value[k]
    {
      out[i] := binary[i] as int;
    }
    ok := true;
  }
}
