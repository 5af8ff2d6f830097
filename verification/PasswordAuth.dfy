/**
 The signed session token of the chat template: printed with its expiry time, read back from a cookie
 header, checked against the clock. HMAC is a parameter with base64url output; comparing the SHA-256
 hashes of two signatures is taken to compare the signatures.
 */
module PasswordAuth {
  import opened Wrappers
  import opened Text

  const COOKIE_NAME := "eve_chat_session"
  const MAX_AGE := 60 * 60 * 24 * 30

  type Signer = string -> string

  /** The alphabet of RFC 4648, section 5, without padding. */
  predicate IsBase64Url(s: string) {
    s != "" && forall i :: 0 <= i < |s| ==>
      'A' <= s[i] <= 'Z' || 'a' <= s[i] <= 'z' || IsDigit(s[i]) || s[i] == '-' || s[i] == '_'
  }

  /** `Math.floor(now / 1000)`; Dafny's division by a positive number rounds down too. */
  function Seconds(now: int): int { now / 1000 }

  function Payload(expiresAt: int): string { "v1." + PrintInt(expiresAt) }

  /** Lines 22-28. */
  function CreateToken(sign: Signer, now: int): string {
    var payload := Payload(Seconds(now) + MAX_AGE);
    payload + "." + sign(payload)
  }

  predicate IsSafe(n: int) { 0 - MAX_SAFE_INTEGER <= n <= MAX_SAFE_INTEGER }

  /** Lines 30-51; a missing token is the empty one. */
  predicate VerifyToken(sign: Signer, token: string, now: int) {
    var parts := Split(token, '.');
    && token != ""
    && |parts| == 3
    && parts[0] == "v1" && parts[2] != ""
    && var expiresAt := ParseInt(parts[1]);
       && expiresAt.Some? && IsSafe(expiresAt.value) && Seconds(now) < expiresAt.value
       && parts[2] == sign(Payload(expiresAt.value))
  }

  // ------------------------------------------------------------ the cookie header

  /** `trim` and `split("=")` of one cookie. */
  function CookieParts(cookie: string): (r: seq<string>)
    ensures r != []
  {
    Split(Trim(cookie), '=')
  }

  /** The second part of the first cookie with the session's name, if there is one. */
  function FindCookie(cookies: seq<string>): Option<string> {
    if cookies == [] then None
    else
      var parts := CookieParts(cookies[0]);
      if parts[0] == COOKIE_NAME then (if |parts| > 1 then Some(parts[1]) else None) else FindCookie(cookies[1..])
  }

  /** decodeURIComponent changes nothing in a text without percent signs; other texts are not modelled. */
  predicate NeedsNoDecoding(s: string) { '%' !in s }

  /** Lines 53-66, for a header whose session cookie needs no decoding. */
  predicate SessionFromHeader(sign: Signer, header: string, now: int) {
    var token := FindCookie(Split(header, ';'));
    token.Some? && NeedsNoDecoding(token.value) && VerifyToken(sign, token.value, now)
  }

  // ------------------------------------------------------------ a token reads back

  lemma DigitsHaveNo(n: int, c: char)
    requires !IsDigit(c) && c != '-'
    ensures c !in PrintInt(n)
  {
  }

  /** A token splits at its two dots into version, expiry and signature. */
  lemma TokenParts(sign: Signer, now: int)
    requires forall p :: IsBase64Url(sign(p))
    ensures var expiresAt := Seconds(now) + MAX_AGE;
            Split(CreateToken(sign, now), '.') == ["v1", PrintInt(expiresAt), sign(Payload(expiresAt))]
  {
    var expiresAt := Seconds(now) + MAX_AGE;
    var digits, signature := PrintInt(expiresAt), sign(Payload(expiresAt));
    assert IsBase64Url(signature);
    DigitsHaveNo(expiresAt, '.');
    assert CreateToken(sign, now) == "v1" + ['.'] + (digits + ['.'] + signature);
    SplitConcat("v1", digits + ['.'] + signature, '.');
    SplitConcat(digits, signature, '.');
    SplitNone("v1", '.');
    SplitNone(digits, '.');
    SplitNone(signature, '.');
  }

  /**
   A token made at one time verifies at another exactly while the later second lies before its expiry:
   thirty days after the second it was made in. The expiry must be a safe integer, as it is for every
   date JavaScript can hold.
   */
  lemma TokenVerifiesUntilExpiry(sign: Signer, made: int, now: int)
    requires forall p :: IsBase64Url(sign(p))
    ensures VerifyToken(sign, CreateToken(sign, made), now)
            <==> Seconds(now) < Seconds(made) + 2592000 && IsSafe(Seconds(made) + 2592000)
  {
    TokenParts(sign, made);
    IntRoundTrip(Seconds(made) + MAX_AGE);
    assert IsBase64Url(sign(Payload(Seconds(made) + MAX_AGE)));
  }

  /** A token made with one signer verifies with another only if both sign its payload alike. */
  lemma OtherPasswordRefuses(sign: Signer, other: Signer, made: int, now: int)
    requires forall p :: IsBase64Url(sign(p))
    requires sign(Payload(Seconds(made) + MAX_AGE)) != other(Payload(Seconds(made) + MAX_AGE))
    ensures !VerifyToken(other, CreateToken(sign, made), now)
  {
    TokenParts(sign, made);
    IntRoundTrip(Seconds(made) + MAX_AGE);
  }

  // ------------------------------------------------------------ which texts verify

  /** "v1", a numeral of e and the signature of version and e, joined by dots; e is a safe integer and lies ahead. */
  predicate GoodToken(sign: Signer, token: string, now: int, numeral: string, e: int) {
    && ParseInt(numeral) == Some(e) && -9007199254740991 <= e <= 9007199254740991 && now < 1000 * e
    && token == "v1." + numeral + "." + sign("v1." + PrintInt(e))
  }

  lemma ThreeParts(token: string, a: string, b: string, c: string)
    requires '.' !in a && '.' !in b && '.' !in c && token == a + ['.'] + (b + ['.'] + c)
    ensures Split(token, '.') == [a, b, c]
  {
    SplitConcat(a, b + ['.'] + c, '.');
    SplitConcat(b, c, '.');
    SplitNone(a, '.');
    SplitNone(b, '.');
    SplitNone(c, '.');
  }

  lemma PartsAreToken(token: string)
    requires |Split(token, '.')| == 3
    ensures var parts := Split(token, '.');
            token == parts[0] + ['.'] + (parts[1] + ['.'] + parts[2])
  {
    hide Split;
    SplitJoins(token, '.');
    var parts := Split(token, '.');
    assert parts[1..][1..] == [parts[2]];
    assert Join(parts, '.') == parts[0] + ['.'] + Join(parts[1..], '.');
    assert Join(parts[1..], '.') == parts[1] + ['.'] + Join([parts[2]], '.');
  }

  lemma NumeralHasNoDot(numeral: string)
    requires ParseInt(numeral).Some?
    ensures '.' !in numeral
  {
    if !IsDigits(numeral) {
      assert numeral == [numeral[0]] + numeral[1..];
    }
  }

  /** Any text verifies exactly if it is a good token. */
  lemma VerifiesIff(sign: Signer, token: string, now: int)
    requires forall p :: IsBase64Url(sign(p))
    ensures VerifyToken(sign, token, now) <==> exists numeral: string, e: int :: GoodToken(sign, token, now, numeral, e)
  {
    hide Split, ParseInt, PrintInt;
    if VerifyToken(sign, token, now) {
      var parts := Split(token, '.');
      var e := ParseInt(parts[1]).value;
      PartsAreToken(token);
      assert "v1" + ['.'] + (parts[1] + ['.'] + parts[2]) == "v1." + parts[1] + "." + parts[2];
      assert GoodToken(sign, token, now, parts[1], e);
    }
    if numeral: string, e: int :| GoodToken(sign, token, now, numeral, e) {
      var signature := sign("v1." + PrintInt(e));
      assert IsBase64Url(signature);
      NumeralHasNoDot(numeral);
      assert token == "v1" + ['.'] + (numeral + ['.'] + signature);
      ThreeParts(token, "v1", numeral, signature);
    }
  }

  // ------------------------------------------------------------ which cookie is read

  /** Cookie i is the first that carries the session's name. */
  predicate FirstNamed(cookies: seq<string>, i: nat) {
    && i < |cookies| && CookieParts(cookies[i])[0] == "eve_chat_session"
    && forall j :: 0 <= j < i ==> CookieParts(cookies[j])[0] != "eve_chat_session"
  }

  /** The token read is the value of the first cookie of the name, and none if that one has no value. */
  lemma {:induction false} FindCookieMeans(cookies: seq<string>)
    ensures forall i: nat :: FirstNamed(cookies, i) ==>
        var parts := CookieParts(cookies[i]);
        FindCookie(cookies) == if |parts| > 1 then Some(parts[1]) else None
    ensures (forall i: nat :: !FirstNamed(cookies, i)) ==> FindCookie(cookies) == None
  {
    hide CookieParts;
    if cookies != [] {
      FindCookieMeans(cookies[1..]);
      if CookieParts(cookies[0])[0] == COOKIE_NAME {
        assert FirstNamed(cookies, 0);
      } else {
        forall i: nat ensures FirstNamed(cookies, i + 1) <==> FirstNamed(cookies[1..], i) {
          if FirstNamed(cookies, i + 1) {
            assert forall j :: 0 <= j < i ==> cookies[1..][j] == cookies[j + 1];
          }
          if FirstNamed(cookies[1..], i) {
            assert forall j :: 1 <= j < i + 1 ==> cookies[j] == cookies[1..][j - 1];
          }
        }
        forall i: nat | FirstNamed(cookies, i) ensures i > 0 && FirstNamed(cookies[1..], i - 1) {
          assert FirstNamed(cookies, (i - 1) + 1) || i == 0;
        }
      }
    }
  }

  /** The cookie has a value without percent signs that verifies. */
  predicate CarriesToken(sign: Signer, cookie: string, now: int) {
    var parts := CookieParts(cookie);
    |parts| > 1 && '%' !in parts[1] && VerifyToken(sign, parts[1], now)
  }

  lemma OneFirstNamed(cookies: seq<string>, i: nat, j: nat)
    requires FirstNamed(cookies, i) && FirstNamed(cookies, j)
    ensures i == j
  {
  }

  /** A header opens a session exactly if the value of its first cookie of the name verifies. */
  lemma SessionIff(sign: Signer, header: string, now: int)
    ensures SessionFromHeader(sign, header, now) <==>
        exists i: nat :: FirstNamed(Split(header, ';'), i) && CarriesToken(sign, Split(header, ';')[i], now)
  {
    hide CookieParts, Split, VerifyToken, FirstNamed;
    var cookies := Split(header, ';');
    FindCookieMeans(cookies);
    if i: nat :| FirstNamed(cookies, i) {
      NamedIsInside(cookies, i);
      forall j: nat | FirstNamed(cookies, j) ensures j == i {
        OneFirstNamed(cookies, i, j);
      }
    }
  }

  lemma NamedIsInside(cookies: seq<string>, i: nat)
    requires FirstNamed(cookies, i)
    ensures i < |cookies|
  {
  }

  // ------------------------------------------------------------ a token in a header

  predicate CookieChar(c: char) { c != ';' && c != '=' && c != '%' && !IsSpace(c) }

  lemma TokenIsCookieText(sign: Signer, now: int)
    requires forall p :: IsBase64Url(sign(p))
    ensures CreateToken(sign, now) != "" && forall c :: c in CreateToken(sign, now) ==> CookieChar(c)
  {
    var expiresAt := Seconds(now) + MAX_AGE;
    var digits, signature := PrintInt(expiresAt), sign(Payload(expiresAt));
    assert IsBase64Url(signature);
    forall c | c in CreateToken(sign, now) ensures CookieChar(c) {
      assert c in "v1." || c in digits || c in "." || c in signature;
      if c in digits { DigitChar(expiresAt, c); }
    }
  }

  lemma DigitChar(n: int, c: char)
    requires c in PrintInt(n)
    ensures IsDigit(c) || c == '-'
  {
  }

  lemma {:induction false} FindCookieSkips(others: seq<string>, rest: seq<string>)
    requires forall i :: 0 <= i < |others| ==> CookieParts(others[i])[0] != COOKIE_NAME
    ensures FindCookie(others + rest) == FindCookie(rest)
  {
    if others == [] {
      assert others + rest == rest;
    } else {
      assert (others + rest)[1..] == others[1..] + rest;
      FindCookieSkips(others[1..], rest);
    }
  }

  /** The cookie that carries a token, as the browser sends it back. */
  function SessionCookie(token: string): string { COOKIE_NAME + "=" + token }

  lemma SessionCookieParts(token: string, before: string, after: string)
    requires Blank(before) && Blank(after) && token != "" && forall c :: c in token ==> CookieChar(c)
    ensures CookieParts(before + SessionCookie(token) + after) == [COOKIE_NAME, token]
  {
    hide Trim, Split;
    var cookie := SessionCookie(token);
    assert cookie[0] == 'e' && cookie[|cookie| - 1] == token[|token| - 1];
    assert token[|token| - 1] in token;
    TrimPadded(before, cookie, after);
    assert cookie == COOKIE_NAME + ['='] + token;
    SplitConcat(COOKIE_NAME, token, '=');
    SplitNone(COOKIE_NAME, '=');
    SplitNone(token, '=');
  }

  /** What stands before and after a cookie in a header: nothing, or other cookies and the separator. */
  function Header(earlier: Option<string>, cookie: string, later: Option<string>): string {
    (if earlier.Some? then earlier.value + [';'] else "") + cookie + (if later.Some? then [';'] + later.value else "")
  }

  function SplitOf(part: Option<string>): seq<string> { if part.Some? then Split(part.value, ';') else [] }

  lemma HeaderSplits(earlier: Option<string>, cookie: string, later: Option<string>)
    requires ';' !in cookie
    ensures Split(Header(earlier, cookie, later), ';') == SplitOf(earlier) + [cookie] + SplitOf(later)
  {
    SplitNone(cookie, ';');
    var tail := if later.Some? then cookie + [';'] + later.value else cookie;
    if later.Some? {
      SplitConcat(cookie, later.value, ';');
    }
    if earlier.Some? {
      assert Header(earlier, cookie, later) == earlier.value + [';'] + tail;
      SplitConcat(earlier.value, tail, ';');
    } else {
      assert Header(earlier, cookie, later) == tail;
    }
  }

  /**
   Read back from any cookie header in which it is the first cookie of its name, with any blanks around
   it and any cookies before and after, a token is good exactly as long as the token itself is.
   */
  lemma HeaderSessionIsTokenSession(
      sign: Signer, made: int, now: int,
      earlier: Option<string>, before: string, after: string, later: Option<string>)
    requires forall p :: IsBase64Url(sign(p))
    requires Blank(before) && Blank(after)
    requires forall i :: 0 <= i < |SplitOf(earlier)| ==> CookieParts(SplitOf(earlier)[i])[0] != COOKIE_NAME
    ensures SessionFromHeader(sign, Header(earlier, before + SessionCookie(CreateToken(sign, made)) + after, later),
        now)
            <==> Seconds(now) < Seconds(made) + 2592000 && IsSafe(Seconds(made) + 2592000)
  {
    hide CookieParts, Split, VerifyToken, Trim, CreateToken;
    var token := CreateToken(sign, made);
    TokenIsCookieText(sign, made);
    var cookie := before + SessionCookie(token) + after;
    assert ';' !in cookie;
    HeaderSplits(earlier, cookie, later);
    FindCookieSkips(SplitOf(earlier), [cookie] + SplitOf(later));
    assert SplitOf(earlier) + [cookie] + SplitOf(later) == SplitOf(earlier) + ([cookie] + SplitOf(later));
    SessionCookieParts(token, before, after);
    assert FindCookie([cookie] + SplitOf(later)) == Some(token);
    TokenVerifiesUntilExpiry(sign, made, now);
    assert '%' !in token;
  }
}
