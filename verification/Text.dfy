/** Trimming and splitting of strings, as the Rust and JavaScript code uses them. */
module Text {

  /** The characters with the Unicode property White_Space, which Rust's trim removes. */
  predicate RustSpace(c: char) {
    || '\t' <= c <= '\r' || c == ' ' || c == '\U{85}' || c == '\U{A0}' || c == '\U{1680}'
    || '\U{2000}' <= c <= '\U{200A}' || c == '\U{2028}' || c == '\U{2029}' || c == '\U{202F}'
    || c == '\U{205F}' || c == '\U{3000}'
  }

  /** White space and line terminators of ECMAScript, which String.prototype.trim removes. */
  predicate JsSpace(c: char) {
    || '\t' <= c <= '\r' || c == ' ' || c == '\U{A0}' || c == '\U{1680}' || '\U{2000}' <= c <= '\U{200A}'
    || c == '\U{2028}' || c == '\U{2029}' || c == '\U{202F}' || c == '\U{205F}' || c == '\U{3000}' || c == '\U{FEFF}'
  }

  function TrimStart(s: string, space: char -> bool): string {
    if s != "" && space(s[0]) then TrimStart(s[1..], space) else s
  }

  function TrimEnd(s: string, space: char -> bool): string {
    if s != "" && space(s[|s| - 1]) then TrimEnd(s[..|s| - 1], space) else s
  }

  function Trim(s: string, space: char -> bool): string {
    TrimEnd(TrimStart(s, space), space)
  }

  /** Neither end of the string is a space. */
  predicate Trimmed(s: string, space: char -> bool) {
    s != "" ==> !space(s[0]) && !space(s[|s| - 1])
  }

  lemma {:induction false} TrimStartFacts(s: string, space: char -> bool)
    ensures var t := TrimStart(s, space); |t| <= |s| && t == s[|s| - |t|..] && (t != "" ==> !space(t[0]))
  {
    if s != "" && space(s[0]) {
      TrimStartFacts(s[1..], space);
    }
  }

  lemma {:induction false} TrimEndFacts(s: string, space: char -> bool)
    ensures var t := TrimEnd(s, space); |t| <= |s| && t == s[..|t|] && (t != "" ==> !space(t[|t| - 1]))
  {
    if s != "" && space(s[|s| - 1]) {
      TrimEndFacts(s[..|s| - 1], space);
    }
  }

  lemma TrimTrims(s: string, space: char -> bool)
    ensures Trimmed(Trim(s, space), space)
    ensures |Trim(s, space)| <= |s|
    ensures forall c | c in Trim(s, space) :: c in s
  {
    TrimStartFacts(s, space);
    TrimEndFacts(TrimStart(s, space), space);
    var a, b := TrimStart(s, space), Trim(s, space);
    assert forall i | 0 <= i < |b| :: b[i] == a[i] == s[|s| - |a| + i];
  }

  predicate AllSpace(s: string, space: char -> bool) {
    forall c | c in s :: space(c)
  }

  lemma SpaceCons(c: char, a: string, space: char -> bool)
    requires space(c) && AllSpace(a, space)
    ensures AllSpace([c] + a, space) && AllSpace(a + [c], space)
  {}

  lemma {:induction false} TrimStartSplits(s: string, space: char -> bool) returns (a: string)
    ensures AllSpace(a, space) && s == a + TrimStart(s, space)
  {
    if s != "" && space(s[0]) {
      var rest := s[1..];
      var b := TrimStartSplits(rest, space);
      SpaceCons(s[0], b, space);
      a := [s[0]] + b;
      assert s == [s[0]] + rest;
    } else {
      a := "";
    }
  }

  lemma {:induction false} TrimEndSplits(s: string, space: char -> bool) returns (b: string)
    ensures AllSpace(b, space) && s == TrimEnd(s, space) + b
  {
    if s != "" && space(s[|s| - 1]) {
      var rest, last := s[..|s| - 1], s[|s| - 1];
      var a := TrimEndSplits(rest, space);
      SpaceCons(last, a, space);
      b := a + [last];
      assert s == rest + [last];
    } else {
      b := "";
    }
  }

  /** Only spaces are trimmed, and all of them at either end. */
  lemma TrimSplits(s: string, space: char -> bool) returns (a: string, b: string)
    ensures AllSpace(a, space) && AllSpace(b, space) && s == a + Trim(s, space) + b && Trimmed(Trim(s, space), space)
  {
    TrimTrims(s, space);
    a := TrimStartSplits(s, space);
    b := TrimEndSplits(TrimStart(s, space), space);
  }

  lemma TrimKeeps(s: string, space: char -> bool)
    requires Trimmed(s, space)
    ensures Trim(s, space) == s
  {}

  lemma TrimTwice(s: string, space: char -> bool)
    ensures Trim(Trim(s, space), space) == Trim(s, space)
  {
    TrimTrims(s, space);
  }

  /** The pieces between the separators; there is always at least one. */
  function Split(s: string, separator: char): (r: seq<string>)
    ensures r != []
  {
    if s == "" then [""]
    else if s[0] == separator then [""] + Split(s[1..], separator)
    else var rest := Split(s[1..], separator); [[s[0]] + rest[0]] + rest[1..]
  }

  predicate SameLetter(a: char, b: char) {
    a == b || ('A' <= a <= 'Z' && b as int == a as int + 32) || ('a' <= a <= 'z' && b as int == a as int - 32)
  }

  /** The text is this word, in whatever letter case of the ASCII letters. */
  predicate Spells(s: string, word: string) {
    |s| == |word| && forall i | 0 <= i < |s| :: SameLetter(s[i], word[i])
  }

  /** The pieces with the separator between them. */
  function Joined(pieces: seq<string>, separator: char): string
    requires pieces != []
  {
    if |pieces| == 1 then pieces[0] else pieces[0] + [separator] + Joined(pieces[1..], separator)
  }

  /** The pieces have no separator in them and make up the string. */
  lemma {:induction false} SplitIs(s: string, separator: char)
    ensures Joined(Split(s, separator), separator) == s
    ensures forall i | 0 <= i < |Split(s, separator)| :: separator !in Split(s, separator)[i]
  {
    if s != "" {
      SplitIs(s[1..], separator);
      var rest := Split(s[1..], separator);
      if s[0] == separator {
        assert ([""] + rest)[1..] == rest;
      } else {
        assert ([[s[0]] + rest[0]] + rest[1..])[1..] == rest[1..];
      }
      assert s == [s[0]] + s[1..];
    }
  }
}
