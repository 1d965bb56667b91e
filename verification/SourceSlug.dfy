/**
 The two recognisers of an ingest source name: the byte test of
 src/config/ingest.rs and the pattern of static/app-routing-ingest.js.
 */
module SourceSlug {

  type Byte = x: int | 0 <= x < 256

  // ---- UTF-8 ----

  function Utf8(c: char): (bytes: seq<Byte>)
    ensures 1 <= |bytes| <= 4
    ensures c as int < 128 ==> bytes == [c as int]
    ensures c as int >= 128 ==> forall i | 0 <= i < |bytes| :: bytes[i] >= 128
  {
    var n := c as int;
    if n < 0x80 then [n]
    else if n < 0x800 then [192 + n / 64, 128 + n % 64]
    else if n < 0x10000 then [224 + n / 4096, 128 + n / 64 % 64, 128 + n % 64]
    else [240 + n / 262144, 128 + n / 4096 % 64, 128 + n / 64 % 64, 128 + n % 64]
  }

  /** The bytes that the Rust string holds. */
  function Encode(s: string): seq<Byte> {
    if s == "" then [] else Utf8(s[0]) + Encode(s[1..])
  }

  // ---- The byte test ----

  const HYPHEN: Byte := 45

  predicate SlugByte(b: Byte) {
    97 <= b <= 122 || 48 <= b <= 57
  }

  method ValidIngestSourceSlug(source: seq<Byte>) returns (valid: bool)
    ensures valid <==> RustSlug(source)
  {
    var len := |source|;
    if !(2 <= len <= 40) {
      return false;
    }
    for index := 0 to len
      invariant forall i | 0 <= i < index :: ByteOk(source, i)
    {
      var byte := source[index];
      if !(SlugByte(byte) || (byte == HYPHEN && index > 0 && index + 1 < len)) {
        assert !ByteOk(source, index);
        return false;
      }
    }
    var doubled := exists i | 0 <= i < len - 1 :: source[i] == HYPHEN && source[i + 1] == HYPHEN;
    return !doubled;
  }

  predicate ByteOk(source: seq<Byte>, i: int)
    requires 0 <= i < |source|
  {
    SlugByte(source[i]) || (source[i] == HYPHEN && 0 < i && i + 1 < |source|)
  }

  predicate NoDoubleHyphen(source: seq<Byte>) {
    forall i | 0 <= i < |source| - 1 :: !(source[i] == HYPHEN && source[i + 1] == HYPHEN)
  }

  predicate RustSlug(source: seq<Byte>) {
    && 2 <= |source| <= 40
    && (forall i | 0 <= i < |source| :: ByteOk(source, i))
    && NoDoubleHyphen(source)
  }

  // ---- The pattern ^[a-z0-9]+(?:-[a-z0-9]+)*$ ----

  predicate GroupChar(c: char) {
    'a' <= c <= 'z' || '0' <= c <= '9'
  }

  predicate IsGroup(s: string) {
    s != "" && forall i | 0 <= i < |s| :: GroupChar(s[i])
  }

  /** The groups joined by hyphens. */
  function Join(groups: seq<string>): string
    requires groups != []
  {
    if |groups| == 1 then groups[0] else groups[0] + "-" + Join(groups[1..])
  }

  ghost predicate MatchesPattern(s: string) {
    exists groups: seq<string> ::
      groups != [] && (forall i | 0 <= i < |groups| :: IsGroup(groups[i])) && s == Join(groups)
  }

  ghost predicate UiSlug(s: string) {
    MatchesPattern(s) && 2 <= |s| <= 40
  }

  // ---- The two agree ----

  /** The byte test as a scan: `start` says that no group character has been read since the last hyphen. */
  predicate Scan(s: string, start: bool) {
    if s == "" then !start
    else if GroupChar(s[0]) then Scan(s[1..], false)
    else s[0] == '-' && !start && Scan(s[1..], true)
  }

  lemma {:induction false} ScanOfGroup(g: string, rest: string, start: bool)
    requires IsGroup(g)
    ensures Scan(g + rest, start) <==> Scan(rest, false)
  {
    assert (g + rest)[1..] == g[1..] + rest;
    if |g| > 1 {
      ScanOfGroup(g[1..], rest, false);
    } else {
      assert g[1..] + rest == rest;
    }
  }

  lemma {:induction false} ScanOfJoin(groups: seq<string>)
    requires groups != [] && forall i | 0 <= i < |groups| :: IsGroup(groups[i])
    ensures Scan(Join(groups), true)
  {
    if |groups| == 1 {
      assert groups[0] + "" == groups[0];
      ScanOfGroup(groups[0], "", true);
    } else {
      var rest := "-" + Join(groups[1..]);
      assert Join(groups) == groups[0] + rest;
      ScanOfGroup(groups[0], rest, true);
      assert rest[1..] == Join(groups[1..]);
      ScanOfJoin(groups[1..]);
    }
  }

  /** A scanned string falls into its groups; after a group has begun, the first one may be empty so far. */
  lemma {:induction false} GroupsOfScan(s: string, start: bool) returns (groups: seq<string>)
    requires Scan(s, start)
    ensures groups != [] && s == Join(groups)
    ensures forall i | 1 <= i < |groups| :: IsGroup(groups[i])
    ensures IsGroup(groups[0]) || (!start && groups[0] == "")
  {
    if s == "" {
      groups := [""];
    } else if GroupChar(s[0]) {
      var rest := GroupsOfScan(s[1..], false);
      groups := [[s[0]] + rest[0]] + rest[1..];
      assert groups[1..] == rest[1..];
      assert s == [s[0]] + s[1..];
      assert Join(groups) == [s[0]] + Join(rest);
    } else {
      var rest := GroupsOfScan(s[1..], true);
      groups := [""] + rest;
      assert groups[1..] == rest;
      assert s == "" + "-" + s[1..];
    }
  }

  lemma PatternIsScan(s: string)
    ensures MatchesPattern(s) <==> Scan(s, true)
  {
    if Scan(s, true) {
      var groups := GroupsOfScan(s, true);
      assert forall i | 0 <= i < |groups| :: IsGroup(groups[i]);
    }
    if MatchesPattern(s) {
      var groups: seq<string> :|
        groups != [] && (forall i | 0 <= i < |groups| :: IsGroup(groups[i])) && s == Join(groups);
      ScanOfJoin(groups);
    }
  }

  /** The same scan over bytes; `first` says that nothing has been read yet. */
  predicate ByteScan(source: seq<Byte>, start: bool) {
    if source == [] then !start
    else if SlugByte(source[0]) then ByteScan(source[1..], false)
    else source[0] == HYPHEN && !start && ByteScan(source[1..], true)
  }

  /** What the scan accepts after `start`, said position by position. */
  predicate Positions(source: seq<Byte>, start: bool) {
    && (source == [] ==> !start)
    && (forall i | 0 <= i < |source| :: SlugByte(source[i]) || (source[i] == HYPHEN && i + 1 < |source|))
    && (source != [] && source[0] == HYPHEN ==> !start)
    && NoDoubleHyphen(source)
  }

  lemma {:induction false} ByteScanIsPositions(source: seq<Byte>, start: bool)
    ensures ByteScan(source, start) <==> Positions(source, start)
  {
    if source != [] {
      var rest := source[1..];
      ByteScanIsPositions(rest, !SlugByte(source[0]));
      assert forall i | 0 <= i < |rest| :: rest[i] == source[i + 1];
      assert forall i | 1 <= i < |source| :: source[i] == rest[i - 1];
      if Positions(source, start) {
        assert Positions(rest, !SlugByte(source[0]));
      }
      if ByteScan(source, start) {
        forall i | 0 <= i < |source|
          ensures SlugByte(source[i]) || (source[i] == HYPHEN && i + 1 < |source|)
        {}
        forall i | 0 <= i < |source| - 1 ensures !(source[i] == HYPHEN && source[i + 1] == HYPHEN) {
          if i > 0 {
            assert !(rest[i - 1] == HYPHEN && rest[i] == HYPHEN);
          }
        }
      }
    }
  }

  lemma {:induction false} ScanOfBytes(s: string, start: bool)
    ensures Scan(s, start) <==> ByteScan(Encode(s), start)
    ensures Scan(s, start) ==> |Encode(s)| == |s|
    ensures |Encode(s)| >= |s|
  {
    if s != "" {
      var bytes := Encode(s);
      var first := Utf8(s[0]);
      assert bytes[0] == first[0];
      if s[0] as int < 128 {
        assert bytes[1..] == Encode(s[1..]);
        ScanOfBytes(s[1..], !GroupChar(s[0]));
      } else {
        ScanOfBytes(s[1..], start);
      }
    }
  }

  /**
   For every string, the byte test on its UTF-8 encoding and the pattern with its
   length bounds give the same answer.
   */
  lemma RecognisersAgree(s: string)
    ensures RustSlug(Encode(s)) <==> UiSlug(s)
  {
    PatternIsScan(s);
    ScanOfBytes(s, true);
    ByteScanIsPositions(Encode(s), true);
    var bytes := Encode(s);
    if 2 <= |bytes| <= 40 {
      assert Positions(bytes, true) ==> forall i | 0 <= i < |bytes| :: ByteOk(bytes, i);
      if RustSlug(bytes) {
        assert ByteOk(bytes, 0);
        assert forall i | 0 <= i < |bytes| ::
            ByteOk(bytes, i) ==> SlugByte(bytes[i]) || (bytes[i] == HYPHEN && i + 1 < |bytes|);
      }
    }
  }
}
