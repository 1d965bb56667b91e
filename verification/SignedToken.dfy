/**
 The acknowledgement links of src/emergency.rs:144-172.  The keyed hash and the JSON encoder and
 parser are parameters; what is assumed of them is said where it is used.
 */
module SignedToken {
  import opened Base64Url
  import opened Wrappers

  /** What the parsed body holds under "r", "e" and "a"; None where the field is absent or of another type. */
  datatype Claims = Claims(receipt: Option<string>, expiry: Option<int>, action: Option<string>)

  datatype Primitives = Primitives(
    mac: string -> string, render: (string, int) -> seq<Byte>, parse: seq<Byte> -> Option<Claims>)

  predicate IsI64(n: int) {
    -0x8000_0000_0000_0000 <= n < 0x8000_0000_0000_0000
  }

  /** Parsing what was printed gives the printed fields back. */
  ghost predicate Faithful(p: Primitives) {
    forall receipt: string, exp: int | IsI64(exp) ::
      p.parse(p.render(receipt, exp)) == Some(Claims(Some(receipt), Some(exp), Some("ack")))
  }

  function SignToken(p: Primitives, receipt: string, exp: int): string {
    var body := Encode(p.render(receipt, exp));
    body + "." + p.mac(body)
  }

  function SplitOnce(s: string, at: char): Option<(string, string)> {
    if s == "" then None
    else if s[0] == at then Some(("", s[1..]))
    else
      var rest := SplitOnce(s[1..], at);
      if rest.None? then None else Some(([s[0]] + rest.value.0, rest.value.1))
  }

  function Accept(claims: Claims, now: int): Option<string> {
    if claims.action != Some("ack") || claims.expiry.None? || claims.expiry.value < now then None
    else if claims.receipt == Some("") then None
    else claims.receipt
  }

  function VerifyToken(p: Primitives, token: string, now: int): Option<string> {
    var split := SplitOnce(token, '.');
    if split.None? || split.value.1 != p.mac(split.value.0) then None
    else
      var bytes := Decode(split.value.0);
      if bytes.None? then None
      else
        var claims := p.parse(bytes.value);
        if claims.None? then None else Accept(claims.value, now)
  }

  lemma {:induction false} SplitOnceIff(s: string, at: char, a: string, b: string)
    ensures SplitOnce(s, at) == Some((a, b)) <==> at !in a && s == a + [at] + b
  {
    if s == "" {
    } else {
      assert s == [s[0]] + s[1..];
      HeadOf(a, [at] + b);
      assert a + [at] + b == a + ([at] + b);
      if s[0] != at && a != "" {
        SplitOnceIff(s[1..], at, a[1..], b);
        assert a == [a[0]] + a[1..];
        assert a + [at] + b == [a[0]] + (a[1..] + [at] + b);
      }
    }
  }

  lemma HeadOf(a: string, b: string)
    requires b != ""
    ensures if a == "" then a + b == b else (a + b)[0] == a[0] && a[0] in a
  {}

  lemma NoDotInside(bytes: seq<Byte>)
    ensures '.' !in Encode(bytes) && '.' !in PaddedEncode(bytes)
  {
    forall i | 0 <= i < |Encode(bytes)| ensures Encode(bytes)[i] != '.' {
      SymbolIff('.', Sextets(bytes)[i]);
    }
  }

  /** A token just signed gives its receipt back exactly when there is one and it has not expired. */
  lemma SignedTokenVerifiesIff(p: Primitives, receipt: string, exp: int, now: int)
    requires Faithful(p) && IsI64(exp)
    ensures VerifyToken(p, SignToken(p, receipt, exp), now)
         == if receipt != "" && exp >= now then Some(receipt) else None
  {
    var bytes := p.render(receipt, exp);
    var body := Encode(bytes);
    NoDotInside(bytes);
    SplitOnceIff(SignToken(p, receipt, exp), '.', body, p.mac(body));
    DecodeIff(body, bytes);
  }

  /** The token is the signed text of these bytes, with base64 padding or without. */
  predicate Signs(p: Primitives, token: string, bytes: seq<Byte>) {
    || token == Encode(bytes) + "." + p.mac(Encode(bytes))
    || token == PaddedEncode(bytes) + "." + p.mac(PaddedEncode(bytes))
  }

  /** The claims acknowledge this receipt, and have not expired. */
  predicate Good(claims: Claims, receipt: string, now: int) {
    && claims.receipt == Some(receipt) && receipt != ""
    && claims.action == Some("ack")
    && claims.expiry.Some? && now <= claims.expiry.value
  }

  /** All a verified token can be: the text of some bytes under its own hash, whose claims are still good. */
  lemma VerifyIff(p: Primitives, token: string, now: int, receipt: string)
    ensures VerifyToken(p, token, now) == Some(receipt)
       <==> exists bytes :: Signs(p, token, bytes) && p.parse(bytes).Some?
                            && Good(p.parse(bytes).value, receipt, now)
  {
    if VerifyToken(p, token, now) == Some(receipt) {
      var (body, mac) := SplitOnce(token, '.').value;
      SplitOnceIff(token, '.', body, mac);
      var bytes := Decode(body).value;
      DecodeIff(body, bytes);
      assert Signs(p, token, bytes);
    }
    forall bytes | Signs(p, token, bytes)
      ensures p.parse(bytes).Some? ==> VerifyToken(p, token, now) == Accept(p.parse(bytes).value, now)
    {
      NoDotInside(bytes);
      DecodeIff(Encode(bytes), bytes);
      DecodeIff(PaddedEncode(bytes), bytes);
      SplitOnceIff(token, '.', Encode(bytes), p.mac(Encode(bytes)));
      SplitOnceIff(token, '.', PaddedEncode(bytes), p.mac(PaddedEncode(bytes)));
    }
  }
}
