// src/pyvider/state_stores/filesystem.py:64-99: one wire name to one path segment and back.
// Percent-encoding and the unreserved set are those of RFC 3986, sections 2.1 and 2.3.
module Segments {
  import opened Texts

  const PERCENT: Byte := 37
  const DOT: Byte := 46
  const SPACE: Byte := 32
  const SLASH: Byte := 47

  predicate Unreserved(b: Byte) {
    48 <= b <= 57 || 65 <= b <= 90 || 97 <= b <= 122 || b == 45 || b == DOT || b == 95 || b == 126
  }

  function HexDigit(n: nat): Byte
    requires n < 16
  {
    if n < 10 then 48 + n else 55 + n
  }

  predicate IsHex(b: Byte) {
    48 <= b <= 57 || 65 <= b <= 70 || 97 <= b <= 102
  }

  function HexValue(b: Byte): (n: nat)
    requires IsHex(b)
    ensures n < 16
  {
    if b <= 57 then b - 48 else if b <= 70 then b - 55 else b - 87
  }

  function Escape(b: Byte): Text {
    [PERCENT, HexDigit(b / 16), HexDigit(b % 16)]
  }

  function EscapeAll(s: Text): Text {
    if s == [] then [] else Escape(s[0]) + EscapeAll(s[1..])
  }

  function QuoteByte(b: Byte): Text {
    if Unreserved(b) then [b] else Escape(b)
  }

  // urllib.parse.quote(value, safe="")
  function Quote(s: Text): Text {
    if s == [] then []
    else QuoteByte(s[0]) + Quote(s[1..])
  }

  // How much of e is left by rstrip(". ").
  function KeptLength(e: Text): (n: nat)
    ensures n <= |e|
  {
    if e != [] && (e[|e| - 1] == DOT || e[|e| - 1] == SPACE) then KeptLength(e[..|e| - 1]) else |e|
  }

  function Encode(s: Text): Text {
    var quoted := Quote(s);
    quoted[..KeptLength(quoted)] + EscapeAll(quoted[KeptLength(quoted)..])
  }

  // urllib.parse.unquote on an encoded name: a percent sign not followed by two hex digits stands.
  function Decode(e: Text): Text {
    if e == [] then []
    else if e[0] == PERCENT && |e| >= 3 && IsHex(e[1]) && IsHex(e[2]) then
      [16 * HexValue(e[1]) + HexValue(e[2])] + Decode(e[3..])
    else [e[0]] + Decode(e[1..])
  }

  // ------------------------------------------------------------------ which bytes stand for themselves

  const HEX := "0123456789ABCDEF"

  // Letters, digits, hyphen, period, underscore and tilde.
  predicate IsUnreserved(c: char) {
    'A' <= c <= 'Z' || 'a' <= c <= 'z' || '0' <= c <= '9' || c == '-' || c == '.' || c == '_' || c == '~'
  }

  // Exactly these stand for themselves; any other byte is a percent sign and two upper-case hex digits.
  lemma {:induction false} QuotedByte(b: Byte)
    ensures if IsUnreserved(b as char) then QuoteByte(b) == [b]
      else QuoteByte(b) == ['%' as int, HEX[b / 16] as int, HEX[b % 16] as int]
  {
    HexDigitIs(b / 16);
    HexDigitIs(b % 16);
  }

  lemma {:induction false} HexDigitIs(n: nat)
    requires n < 16
    ensures HexDigit(n) == HEX[n] as int
  {
  }

  // ------------------------------------------------------------------ proofs

  lemma {:induction false} HexRoundTrip(b: Byte)
    ensures IsHex(HexDigit(b / 16)) && IsHex(HexDigit(b % 16))
    ensures 16 * HexValue(HexDigit(b / 16)) + HexValue(HexDigit(b % 16)) == b
  {
  }

  lemma {:induction false} DecodeEscape(b: Byte, rest: Text)
    ensures Decode(Escape(b) + rest) == [b] + Decode(rest)
  {
    HexRoundTrip(b);
    assert (Escape(b) + rest)[3..] == rest;
  }

  lemma {:induction false} DecodeQuoteByte(b: Byte, rest: Text)
    ensures Decode(QuoteByte(b) + rest) == [b] + Decode(rest)
  {
    if Unreserved(b) {
      assert ([b] + rest)[1..] == rest;
    } else {
      DecodeEscape(b, rest);
    }
  }

  lemma Joined(x: Text, y: Text, z: Text)
    ensures (x + y) + z == x + (y + z)
  {
  }

  lemma {:induction false} DecodeChain(token: Text, b: Byte, more: Text, name: Text, rest: Text)
    requires Decode(token + (more + rest)) == [b] + Decode(more + rest)
    requires Decode(more + rest) == name + Decode(rest)
    ensures Decode(token + more + rest) == [b] + name + Decode(rest)
  {
    Joined(token, more, rest);
    Joined([b], name, Decode(rest));
  }

  lemma {:induction false} QuoteHead(s: Text)
    requires s != []
    ensures Quote(s) == QuoteByte(s[0]) + Quote(s[1..]) && s == [s[0]] + s[1..]
  {
  }

  lemma {:induction false} DecodeQuote(s: Text, rest: Text)
    ensures Decode(Quote(s) + rest) == s + Decode(rest)
  {
    if s == [] {
      assert Quote(s) + rest == rest;
    } else {
      DecodeQuote(s[1..], rest);
      QuoteHead(s);
      DecodeQuoteByte(s[0], Quote(s[1..]) + rest);
      DecodeChain(QuoteByte(s[0]), s[0], Quote(s[1..]), s[1..], rest);
    }
  }

  lemma {:induction false} DecodeEscapeAll(s: Text)
    ensures Decode(EscapeAll(s)) == s
  {
    if s != [] {
      DecodeEscapeAll(s[1..]);
      DecodeEscape(s[0], EscapeAll(s[1..]));
    }
  }

  lemma {:induction false} QuoteAppend(a: Text, b: Text)
    ensures Quote(a + b) == Quote(a) + Quote(b)
  {
    if a == [] {
      assert a + b == b;
    } else {
      QuoteAppend(a[1..], b);
      assert (a + b)[0] == a[0] && (a + b)[1..] == a[1..] + b;
      Joined(QuoteByte(a[0]), Quote(a[1..]), Quote(b));
    }
  }

  lemma {:induction false} QuoteLast(init: Text, last: Byte)
    ensures Quote(init + [last]) == Quote(init) + QuoteByte(last)
  {
    QuoteAppend(init, [last]);
    QuoteHead([last]);
    assert Quote([last][1..]) == [];
  }

  lemma {:induction false} QuoteByteEnd(b: Byte)
    requires b != DOT
    ensures var q := QuoteByte(b); q != [] && q[|q| - 1] != DOT && q[|q| - 1] != SPACE
  {
    HexRoundTrip(b);
  }

  // k bytes of the name are left of its quoted form, all others are dots.
  ghost predicate KeepsBytes(s: Text, k: nat) {
    k <= |s| && Quote(s)[..KeptLength(Quote(s))] == Quote(s[..k]) && Quote(s)[KeptLength(Quote(s))..] == s[k..] &&
    forall i :: k <= i < |s| ==> s[i] == DOT
  }

  // What rstrip takes off a quoted name is exactly the name's own trailing dots.
  lemma {:induction false} KeptIsQuotedPrefix(s: Text) returns (k: nat)
    ensures KeepsBytes(s, k)
  {
    if s == [] {
      k := 0;
    } else {
      var init, last := s[..|s| - 1], s[|s| - 1];
      assert s == init + [last];
      if last == DOT {
        k := KeptIsQuotedPrefix(init);
        KeptBeforeDot(init, k);
      } else {
        k := |s|;
        KeptWhole(init, last);
      }
    }
  }

  lemma {:induction false} KeptBeforeDot(init: Text, k: nat)
    requires KeepsBytes(init, k)
    ensures KeepsBytes(init + [DOT], k)
  {
    DotQuoted(init);
    KeptOfDot(Quote(init));
    CutBefore(init, DOT, k);
    DotsGoOn(init, k);
  }

  lemma {:induction false} DotQuoted(init: Text)
    ensures Quote(init + [DOT]) == Quote(init) + [DOT]
  {
    QuoteLast(init, DOT);
  }

  lemma CutBefore(a: Text, b: Byte, k: nat)
    requires k <= |a|
    ensures (a + [b])[..k] == a[..k] && (a + [b])[k..] == a[k..] + [b]
  {
  }

  lemma DotsGoOn(a: Text, k: nat)
    requires forall i :: k <= i < |a| ==> a[i] == DOT
    ensures forall i :: k <= i < |a + [DOT]| ==> (a + [DOT])[i] == DOT
  {
  }

  lemma {:induction false} KeptWhole(init: Text, last: Byte)
    requires last != DOT
    ensures KeepsBytes(init + [last], |init| + 1)
  {
    var s := init + [last];
    QuoteLast(init, last);
    QuoteByteEnd(last);
    KeptAll(Quote(init), QuoteByte(last));
    assert s[..|s|] == s && s[|s|..] == [];
  }

  lemma {:induction false} KeptOfDot(q: Text)
    ensures KeptLength(q + [DOT]) == KeptLength(q)
    ensures (q + [DOT])[..KeptLength(q)] == q[..KeptLength(q)]
    ensures (q + [DOT])[KeptLength(q)..] == q[KeptLength(q)..] + [DOT]
  {
    assert (q + [DOT])[..|q|] == q;
  }

  lemma {:induction false} KeptAll(a: Text, b: Text)
    requires b != [] && b[|b| - 1] != DOT && b[|b| - 1] != SPACE
    ensures KeptLength(a + b) == |a + b|
    ensures (a + b)[..|a + b|] == a + b && (a + b)[|a + b|..] == []
  {
  }

  // Decoding undoes encoding, for every name; so no two names share a segment.
  lemma {:induction false} EncodeRoundTrip(s: Text)
    ensures Decode(Encode(s)) == s
  {
    var k := KeptIsQuotedPrefix(s);
    DecodeQuote(s[..k], EscapeAll(s[k..]));
    DecodeEscapeAll(s[k..]);
    assert s == s[..k] + s[k..];
  }

  lemma {:induction false} EncodeInjective(s: Text, t: Text)
    requires Encode(s) == Encode(t)
    ensures s == t
  {
    EncodeRoundTrip(s);
    EncodeRoundTrip(t);
  }

  predicate Plain(e: Text) {
    forall i :: 0 <= i < |e| ==> Unreserved(e[i]) || e[i] == PERCENT
  }

  lemma {:induction false} QuotePlain(s: Text)
    ensures Plain(Quote(s))
  {
    if s != [] {
      QuotePlain(s[1..]);
      HexRoundTrip(s[0]);
    }
  }

  lemma {:induction false} EscapeAllPlain(s: Text)
    ensures Plain(EscapeAll(s))
    ensures s != [] ==> EscapeAll(s) != [] && EscapeAll(s)[|EscapeAll(s)| - 1] != DOT
    ensures s != [] ==> EscapeAll(s)[|EscapeAll(s)| - 1] != SPACE
  {
    if s != [] {
      EscapeAllPlain(s[1..]);
      HexRoundTrip(s[0]);
    }
  }

  lemma {:induction false} KeptEnd(e: Text)
    ensures var n := KeptLength(e); n > 0 ==> e[n - 1] != DOT && e[n - 1] != SPACE
  {
    if e != [] && (e[|e| - 1] == DOT || e[|e| - 1] == SPACE) {
      KeptEnd(e[..|e| - 1]);
    }
  }

  // An encoded name is one path segment: unreserved bytes and percent signs only, so no separator,
  // never ending in a dot or a space, never "." or "..", and empty only for the empty name.
  lemma {:induction false} EncodeConfined(s: Text)
    ensures Plain(Encode(s)) && SLASH !in Encode(s)
    ensures Encode(s) != [] ==> Encode(s)[|Encode(s)| - 1] != DOT && Encode(s)[|Encode(s)| - 1] != SPACE
    ensures Encode(s) != [DOT] && Encode(s) != [DOT, DOT]
    ensures Encode(s) == [] <==> s == []
  {
    var q := Quote(s);
    QuotePlain(s);
    KeptEnd(q);
    EscapeAllPlain(q[KeptLength(q)..]);
    EncodeRoundTrip(s);
    assert Plain(q[..KeptLength(q)]);
    assert Plain(Encode(s));
  }

  // A name that needs no escaping stands for itself.
  lemma {:induction false} EncodePlainName(s: Text)
    requires (forall b :: b in s ==> Unreserved(b)) && (s != [] ==> s[|s| - 1] != DOT)
    ensures Encode(s) == s
  {
    QuotePlainName(s);
    assert s != [] ==> s[|s| - 1] in s;
  }

  lemma {:induction false} QuotePlainName(s: Text)
    requires forall b :: b in s ==> Unreserved(b)
    ensures Quote(s) == s
  {
    if s != [] {
      assert s[0] in s;
      QuotePlainName(s[1..]);
    }
  }
}
