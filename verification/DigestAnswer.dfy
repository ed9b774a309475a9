/**
 A Digest answer checked against the text of RFC 7616 section 3.4 and RFC 2069 section 2.1.2: what a server
 that knows the password hashes, written out, is what the answer carries.
 */
module DigestAnswer {
  import opened Bits
  import opened RtspMessage
  import opened HttpAuth
  import W = RtspWriter

  // ---- hexadecimal counts --------------------------------------------------

  predicate IsHex(b: byte) { 48 <= b <= 57 || 97 <= b <= 102 }

  function HexDigit(b: byte): (d: nat)
    requires IsHex(b)
    ensures d < 16
  {
    if b <= 57 then b as int - 48 else b as int - 87
  }

  /** The number a string of hex digits denotes. */
  function HexValue(s: text): (v: nat)
    requires forall i :: 0 <= i < |s| ==> IsHex(s[i])
  {
    if s == [] then 0 else 16 * HexValue(s[..|s| - 1]) + HexDigit(s[|s| - 1])
  }

  function Pow16(n: nat): (p: nat)
    ensures p > 0
  {
    if n == 0 then 1 else 16 * Pow16(n - 1)
  }

  lemma SixteenMod(n: nat, p: nat)
    requires p > 0
    ensures 16 * ((n / 16) % p) + n % 16 == n % (16 * p)
  {
    var m, d := n / 16, n % 16;
    var q, r := m / p, m % p;
    assert m == q * p + r;
    assert n == q * (16 * p) + (16 * r + d);
    UniqueMod(n, 16 * p, q, 16 * r + d);
  }

  lemma UniqueMod(n: nat, p: nat, q: nat, r: nat)
    requires n == q * p + r && r < p
    ensures n % p == r
  {
    var a, b := n / p, n % p;
    assert n == a * p + b;
    assert (a - q) * p == r - b;
    Multiple(a - q, p, r - b);
  }

  lemma Multiple(k: int, p: int, x: int)
    requires k * p == x && -p < x < p
    ensures x == 0
  {
    if k >= 1 {
      Grows(k, p);
    } else if k <= -1 {
      Grows(-k, p);
    }
  }

  lemma Grows(k: int, p: int)
    requires k >= 1 && p > 0
    ensures k * p >= p && (-k) * p <= -p
  {
  }

  /** `Hex` writes the low digits of a number, lower-case. */
  lemma {:induction false} HexMeans(n: nat, width: nat)
    ensures var s := Hex(n, width);
            |s| == width && (forall i :: 0 <= i < |s| ==> IsHex(s[i])) && HexValue(s) == n % Pow16(width)
  {
    if width > 0 {
      HexMeans(n / 16, width - 1);
      SixteenMod(n, Pow16(width - 1));
      var s, d := Hex(n, width), n % 16;
      assert s[..width - 1] == Hex(n / 16, width - 1);
      assert HexDigit(s[width - 1]) == d;
    }
  }

  lemma Pow16Eight()
    ensures Pow16(8) == 0x1_0000_0000
  {
    assert Pow16(4) == 0x1_0000 && Pow16(8) == 0x1_0000 * Pow16(4);
  }

  // ---- the RFC text --------------------------------------------------------

  const Sep: text := [58]

  /** username ":" realm ":" password */
  function A1(username: text, realm: text, password: text): text
  {
    username + Sep + realm + Sep + password
  }

  /** method ":" request-uri */
  function A2(verb: text, uri: text): text { verb + Sep + uri }

  /** With qop "auth": H(A1) ":" nonce ":" nc ":" cnonce ":" qop ":" H(A2), hashed. */
  function Response7616(H: text -> text, a1: text, a2: text, nonce: text, nc: text, cnonce: text): text
  {
    H(H(a1) + Sep + nonce + Sep + nc + Sep + cnonce + Sep + [97, 117, 116, 104] + Sep + H(a2))
  }

  /** Without: H(A1) ":" nonce ":" H(A2), hashed. */
  function Response2069(H: text -> text, a1: text, a2: text, nonce: text): text
  {
    H(H(a1) + Sep + nonce + Sep + H(a2))
  }

  lemma ThreeColonned(a: text, b: text, c: text)
    ensures Colonned([a, b]) == a + Sep + b
    ensures Colonned([a, b, c]) == a + Sep + b + Sep + c
  {
    assert [a, b][..1] == [a] && [a, b, c][..2] == [a, b];
  }

  lemma SixColonned(a: text, b: text, c: text, d: text, e: text, f: text)
    ensures Colonned([a, b, c, d, e, f]) == a + Sep + b + Sep + c + Sep + d + Sep + e + Sep + f
  {
    ThreeColonned(a, b, c);
    ColonnedSnoc([a, b, c], d);
    ColonnedSnoc([a, b, c, d], e);
    ColonnedSnoc([a, b, c, d, e], f);
    assert [a, b, c] + [d] == [a, b, c, d] && [a, b, c, d] + [e] == [a, b, c, d, e];
    assert [a, b, c, d, e] + [f] == [a, b, c, d, e, f];
    hide Colonned;
  }

  lemma ColonnedSnoc(parts: seq<text>, p: text)
    requires parts != []
    ensures Colonned(parts + [p]) == Colonned(parts) + Sep + p
  {
    assert (parts + [p])[..|parts|] == parts;
  }

  /** The client's computation is the RFC's. */
  lemma ResponseMeans(h: (Algorithm, text) -> text, alg: Algorithm, username: text, realm: text, password: text,
                      verb: text, uri: text, nonce: text, nc: text, cnonce: text)
    ensures var H := (s: text) => h(alg, s);
            && HttpAuth.Response(h, alg, username, realm, password, verb, uri, nonce, HttpAuth.Option.Some((nc, cnonce)))
            == Response7616(H, A1(username, realm, password), A2(verb, uri), nonce, nc, cnonce)
            && HttpAuth.Response(h, alg, username, realm, password, verb, uri, nonce, HttpAuth.Option.None)
            == Response2069(H, A1(username, realm, password), A2(verb, uri), nonce)
  {
    ThreeColonned(username, realm, password);
    ThreeColonned(verb, uri, []);
    var ha1, ha2 := h(alg, A1(username, realm, password)), h(alg, A2(verb, uri));
    ThreeColonned(ha1, nonce, ha2);
    SixColonned(ha1, nonce, nc, cnonce, AuthToken, ha2);
    assert AuthToken == [97, 117, 116, 104];
    hide Colonned;
  }

  /** The hash a challenge asks for: MD5 when it names none, or that, in any case; SHA-256 likewise. */
  predicate AsksFor(c: Challenge, alg: Algorithm)
  {
    var name := Param(c, AlgorithmName);
    match alg
    case MD5 => name == [] || Lower(name) == Ascii("md5")
    case SHA256 => Lower(name) == Ascii("sha-256")
  }

  /**
   What the answer carries: the response a server computes from the RFC's text with the challenge's
   realm and nonce, the request's method and uri, the shared password and the hash asked for; under qop
   with the client nonce and an eight-digit count that is the nonce count modulo two to the 32, both of
   which it also states.
   */
  lemma AnswerMeetsServer(h: (Algorithm, text) -> text, c: Challenge, creds: Credentials, i: Input)
    requires DigestAuthorization(h, c, creds, i).Done?
    ensures var v := DigestAuthorization(h, c, creds, i).value;
            exists alg ::
              && AsksFor(c, alg)
              && var H := (s: text) => h(alg, s);
              var a1, a2, nonce := A1(creds.username, c.realm, creds.password), A2(i.verb, i.uri), Param(c, NonceName);
              if TrimSpace(Param(c, QopName)) == [] then
                ReadField(v, ResponseName) == StripCRLF(Response2069(H, a1, a2, nonce))
              else
                var nc := ReadField(v, NcName);
                && |nc| == 8 && (forall k :: 0 <= k < 8 ==> IsHex(nc[k]))
                && HexValue(nc) == i.nonceCount % 0x1_0000_0000
                && ReadField(v, CNonceName) == StripCRLF(i.cnonce) && ReadField(v, QopName) == AuthToken
                && ReadField(v, ResponseName) == StripCRLF(Response7616(H, a1, a2, nonce, nc, i.cnonce))
  {
    FieldsOf(h, c, creds, i);
    AnswerReadsBack(h, c, creds, i, QopName);
    HexMeans(i.nonceCount, 8);
    Pow16Eight();
    hide DigestEntries, DigestAuthorization, ReadField, HttpAuth.Response, Hex, Param, StripCRLF, TrimSpace;
    hide HexValue, Pow16, Response7616, Response2069, A1, A2;
    hide UsernameName, RealmName, NonceName, UriName, QopName, NcName, CNonceName, ResponseName, OpaqueName, AuthToken;
    var es, v := DigestEntries(h, c, creds, i).value, DigestAuthorization(h, c, creds, i).value;
    var alg := DigestHash(Param(c, AlgorithmName)).value;
    assert AsksFor(c, alg);
    ResponseMeans(h, alg, creds.username, c.realm, creds.password, i.verb, i.uri, Param(c, NonceName),
                  Hex(i.nonceCount, 8), i.cnonce);
    if TrimSpace(Param(c, QopName)) != [] {
      assert es[5] == es[4..8][1] && es[6] == es[4..8][2] && es[7] == es[4..8][3];
    }
  }

  // ---- what can be answered, and what is preferred -------------------------

  lemma FirstOfList(part: text, rest: text)
    requires Comma !in part
    ensures Split(part + ([Comma] + rest), Comma) == [part] + Split(rest, Comma)
  {
    W.IndexOfFirst(part, Comma, rest);
    var s := part + ([Comma] + rest);
    assert s[..|part|] == part && s[|part| + 1..] == rest;
  }

  /** Splitting on commas gives a comma-separated list back. */
  lemma {:induction false} ListReadsBack(parts: seq<text>)
    requires parts != [] && forall i :: 0 <= i < |parts| ==> Comma !in parts[i]
    ensures Split(Commas(parts), Comma) == parts
  {
    if |parts| == 1 {
      W.IndexOfNone(parts[0], Comma);
    } else {
      hide Split;
      ListReadsBack(parts[1..]);
      FirstOfList(parts[0], Commas(parts[1..]));
    }
  }

  function Commas(parts: seq<text>): text
    requires parts != []
  {
    if |parts| == 1 then parts[0] else parts[0] + ([Comma] + Commas(parts[1..]))
  }

  /** A list element: a token with white space about it. */
  datatype Spaced = Spaced(pre: text, token: text, post: text) {
    function Text(): text { pre + token + post }
  }

  predicate ValidSpaced(x: Spaced)
  {
    && W.Blank(x.pre) && W.Blank(x.post) && x.token != [] && !IsSpace(x.token[0]) && !IsSpace(x.token[|x.token| - 1])
    && Comma !in x.Text()
  }

  function Texts(xs: seq<Spaced>): (r: seq<text>)
    ensures |r| == |xs| && forall i :: 0 <= i < |xs| ==> r[i] == xs[i].Text()
  {
    seq(|xs|, i requires 0 <= i < |xs| => xs[i].Text())
  }

  /** A list of qop options offers "auth" exactly when one of them is that word, in any case. */
  lemma QopMeans(xs: seq<Spaced>)
    requires xs != [] && forall i :: 0 <= i < |xs| ==> ValidSpaced(xs[i])
    ensures QopOffersAuth(Commas(Texts(xs))) <==> exists i :: 0 <= i < |xs| && Lower(xs[i].token) == AuthToken
  {
    hide Lower, TrimSpace, AuthToken, Split, Commas;
    var parts := Texts(xs);
    ListReadsBack(parts);
    forall i | 0 <= i < |xs|
      ensures TrimSpace(parts[i]) == xs[i].token
    {
      assert ValidSpaced(xs[i]);
      W.Trimmed(xs[i].pre, xs[i].token, xs[i].post);
    }
    if i :| 0 <= i < |xs| && Lower(xs[i].token) == AuthToken {
      assert parts[i] in Split(Commas(parts), Comma);
    }
    if QopOffersAuth(Commas(parts)) {
      var v :| v in Split(Commas(parts), Comma) && Lower(TrimSpace(v)) == AuthToken;
      var i :| 0 <= i < |parts| && parts[i] == v;
      assert Lower(xs[i].token) == AuthToken;
    }
  }

  /** A Digest challenge with a nonce, no qop or one that offers "auth", and this hash. */
  predicate Answerable(c: Challenge, alg: Algorithm)
  {
    && c.scheme == Digest && Param(c, NonceName) != [] && AsksFor(c, alg)
    && (TrimSpace(Param(c, QopName)) == [] || QopOffersAuth(TrimSpace(Param(c, QopName))))
  }

  lemma StrengthMeans(c: Challenge)
    ensures Strength(c) == 3 <==> Answerable(c, SHA256)
    ensures Strength(c) == 2 <==> Answerable(c, MD5)
    ensures Strength(c) == 1 <==> c.scheme == Basic
    ensures Strength(c) <= 3
  {
    hide QopOffersAuth, TrimSpace, Param, NonceName, QopName, AlgorithmName;
    assert |Ascii("sha-256")| == 7 && |Ascii("md5")| == 3;
  }

  /** Is `k` the first of the challenges that meet `p`? */
  predicate FirstOf(cs: seq<Challenge>, k: nat, p: Challenge -> bool)
  {
    k < |cs| && p(cs[k]) && forall j :: 0 <= j < k ==> !p(cs[j])
  }

  /** `k` is the first of the strongest challenges, as the selection leaves it. */
  predicate Selected(cs: seq<Challenge>, k: nat)
  {
    && k < |cs| && Strength(cs[k]) > 0
    && (forall j :: 0 <= j < |cs| ==> Strength(cs[j]) <= Strength(cs[k]))
    && (forall j :: 0 <= j < k ==> Strength(cs[j]) < Strength(cs[k]))
  }

  predicate Some256(cs: seq<Challenge>) { exists j :: 0 <= j < |cs| && Answerable(cs[j], SHA256) }

  predicate SomeMD5(cs: seq<Challenge>) { exists j :: 0 <= j < |cs| && Answerable(cs[j], MD5) }

  /**
   The challenge selected, in plain words: the first that can be answered with SHA-256; without one, the
   first that can be answered with MD5; without that, the first Basic one.
   */
  lemma ChoiceMeans(cs: seq<Challenge>, k: nat)
    requires Selected(cs, k)
    ensures Some256(cs) ==> FirstOf(cs, k, c => Answerable(c, SHA256))
    ensures !Some256(cs) && SomeMD5(cs) ==> FirstOf(cs, k, c => Answerable(c, MD5))
    ensures !Some256(cs) && !SomeMD5(cs) ==> FirstOf(cs, k, (c: Challenge) => c.scheme == Basic)
  {
    hide Strength, Answerable;
    forall j | 0 <= j < |cs|
      ensures Strength(cs[j]) == 3 <==> Answerable(cs[j], SHA256)
      ensures Strength(cs[j]) == 2 <==> Answerable(cs[j], MD5)
      ensures Strength(cs[j]) == 1 <==> cs[j].scheme == Basic
      ensures Strength(cs[j]) <= 3
    {
      StrengthMeans(cs[j]);
    }
  }
}
