/** The page tokens of libs/holon_common/audit_store.py: an object holding the last id, as
    JSON text in base64 with the URL-safe alphabet and without padding (sections 3.2 and 5
    of RFC 4648). */
module PageToken {
  import opened Text
  import opened Wrappers
  import Decimal

  type Byte = b: int | 0 <= b < 256

  // ---------------------------------------------------------------- base64url

  function Symbol(n: nat): char
    requires n < 64
  {
    if n < 26 then 'A' + n as char
    else if n < 52 then 'a' + (n - 26) as char
    else if n < 62 then '0' + (n - 52) as char
    else if n == 62 then '-' else '_'
  }

  function ValueOf(c: char): (n: Option<int>)
    ensures n.Some? ==> 0 <= n.value < 64
  {
    if 'A' <= c <= 'Z' then Some(c as int - 'A' as int)
    else if 'a' <= c <= 'z' then Some(c as int - 'a' as int + 26)
    else if '0' <= c <= '9' then Some(c as int - '0' as int + 52)
    else if c == '-' then Some(62) else if c == '_' then Some(63) else None
  }

  lemma SymbolValue(n: nat)
    requires n < 64
    ensures ValueOf(Symbol(n)) == Some(n) && Symbol(n) != '='
  {
  }

  /** The four symbols of three bytes. */
  function Quantum(a: Byte, b: Byte, c: Byte): (q: string)
    ensures |q| == 4
  {
    [Symbol(a / 4), Symbol(a % 4 * 16 + b / 16), Symbol(b % 16 * 4 + c / 64), Symbol(c % 64)]
  }

  /** `urlsafe_b64encode`, with padding. */
  function Encode64(bytes: seq<Byte>): string {
    if bytes == [] then ""
    else if |bytes| == 1 then [Symbol(bytes[0] / 4), Symbol(bytes[0] % 4 * 16), '=', '=']
    else if |bytes| == 2 then [Symbol(bytes[0] / 4), Symbol(bytes[0] % 4 * 16 + bytes[1] / 16), Symbol(bytes[1] % 16 * 4), '=']
    else Quantum(bytes[0], bytes[1], bytes[2]) + Encode64(bytes[3..])
  }

  function Bytes3(v0: int, v1: int, v2: int, v3: int): (bytes: seq<Byte>)
    requires 0 <= v0 < 64 && 0 <= v1 < 64 && 0 <= v2 < 64 && 0 <= v3 < 64
    ensures |bytes| == 3
  {
    [v0 * 4 + v1 / 16, v1 % 16 * 16 + v2 / 4, v2 % 4 * 64 + v3]
  }

  /** `urlsafe_b64decode` of whole quanta. */
  function Decode64(text: string): Option<seq<Byte>> {
    if text == "" then Some([])
    else if |text| < 4 then None
    else
      var v0, v1, v2, v3 := ValueOf(text[0]), ValueOf(text[1]), ValueOf(text[2]), ValueOf(text[3]);
      if v0.None? || v1.None? then None
      else if text[2] == '=' then (if |text| == 4 && text[3] == '=' then Some([v0.value * 4 + v1.value / 16]) else None)
      else if v2.None? then None
      else if text[3] == '=' then (if |text| == 4 then Some([v0.value * 4 + v1.value / 16, v1.value % 16 * 16 + v2.value / 4]) else None)
      else if v3.None? then None
      else
        var rest := Decode64(text[4..]);
        if rest.None? then None else Some(Bytes3(v0.value, v1.value, v2.value, v3.value) + rest.value)
  }

  lemma QuantumSplits(a: Byte, b: Byte, c: Byte)
    ensures Bytes3(a / 4, a % 4 * 16 + b / 16, b % 16 * 4 + c / 64, c % 64) == [a, b, c]
  {
    assert (a % 4 * 16 + b / 16) / 16 == a % 4 && (a % 4 * 16 + b / 16) % 16 == b / 16;
    assert (b % 16 * 4 + c / 64) / 4 == b % 16 && (b % 16 * 4 + c / 64) % 4 == c / 64;
  }

  lemma QuantumValues(a: Byte, b: Byte, c: Byte)
    ensures var q := Quantum(a, b, c);
            && ValueOf(q[0]) == Some(a / 4) && ValueOf(q[1]) == Some(a % 4 * 16 + b / 16)
            && ValueOf(q[2]) == Some(b % 16 * 4 + c / 64) && ValueOf(q[3]) == Some(c % 64)
            && q[0] != '=' && q[1] != '=' && q[2] != '=' && q[3] != '='
  {
    SymbolValue(a / 4); SymbolValue(a % 4 * 16 + b / 16); SymbolValue(b % 16 * 4 + c / 64); SymbolValue(c % 64);
  }

  lemma EncodeWhole(bytes: seq<Byte>)
    requires |bytes| > 2
    ensures Encode64(bytes) == Quantum(bytes[0], bytes[1], bytes[2]) + Encode64(bytes[3..])
  {
    assert bytes != [] && |bytes| != 1 && |bytes| != 2;
  }

  lemma FirstThree(bytes: seq<Byte>)
    requires |bytes| > 2
    ensures bytes == [bytes[0], bytes[1], bytes[2]] + bytes[3..]
  {
  }

  lemma {:induction false} DecodeEncoded64(bytes: seq<Byte>)
    ensures Decode64(Encode64(bytes)) == Some(bytes)
    decreases |bytes|
  {
    if bytes == [] {
    } else if |bytes| == 1 {
      DecodeOne(bytes);
    } else if |bytes| == 2 {
      DecodeTwo(bytes);
    } else {
      DecodeEncoded64(bytes[3..]);
      DecodeWhole(bytes[0], bytes[1], bytes[2], Encode64(bytes[3..]));
      EncodeWhole(bytes);
      FirstThree(bytes);
    }
  }

  lemma DecodeWhole(a: Byte, b: Byte, c: Byte, rest: string)
    requires Decode64(rest).Some?
    ensures Decode64(Quantum(a, b, c) + rest) == Some([a, b, c] + Decode64(rest).value)
  {
    QuantumValues(a, b, c);
    QuantumSplits(a, b, c);
    assert (Quantum(a, b, c) + rest)[4..] == rest;
  }

  lemma DecodeTwoPads(v0: nat, v1: nat)
    requires v0 < 64 && v1 < 64
    ensures Decode64([Symbol(v0), Symbol(v1), '=', '=']) == Some([v0 * 4 + v1 / 16])
  {
    SymbolValue(v0); SymbolValue(v1);
  }

  lemma DecodeOnePad(v0: nat, v1: nat, v2: nat)
    requires v0 < 64 && v1 < 64 && v2 < 64
    ensures Decode64([Symbol(v0), Symbol(v1), Symbol(v2), '=']) == Some([v0 * 4 + v1 / 16, v1 % 16 * 16 + v2 / 4])
  {
    SymbolValue(v0); SymbolValue(v1); SymbolValue(v2);
  }

  lemma DecodeOne(bytes: seq<Byte>)
    requires |bytes| == 1
    ensures Decode64(Encode64(bytes)) == Some(bytes)
  {
    var a := bytes[0];
    DecodeTwoPads(a / 4, a % 4 * 16);
    assert a / 4 * 4 + a % 4 * 16 / 16 == a;
    assert bytes == [a];
  }

  lemma SplitTwo(a: Byte, b: Byte)
    ensures a / 4 * 4 + (a % 4 * 16 + b / 16) / 16 == a
    ensures (a % 4 * 16 + b / 16) % 16 * 16 + b % 16 * 4 / 4 == b
  {
    assert (a % 4 * 16 + b / 16) / 16 == a % 4 && (a % 4 * 16 + b / 16) % 16 == b / 16;
  }

  lemma EncodeTwo(a: Byte, b: Byte)
    ensures Encode64([a, b]) == [Symbol(a / 4), Symbol(a % 4 * 16 + b / 16), Symbol(b % 16 * 4), '=']
  {
  }

  lemma DecodeTwo(bytes: seq<Byte>)
    requires |bytes| == 2
    ensures Decode64(Encode64(bytes)) == Some(bytes)
  {
    var a, b := bytes[0], bytes[1];
    assert bytes == [a, b];
    EncodeTwo(a, b);
    DecodeOnePad(a / 4, a % 4 * 16 + b / 16, b % 16 * 4);
    SplitTwo(a, b);
  }

  // ---------------------------------------------------------------- padding

  /** `rstrip("=")`. */
  function Stripped(text: string): string {
    if text != "" && text[|text| - 1] == '=' then Stripped(text[..|text| - 1]) else text
  }

  function Pads(n: nat): (text: string)
    ensures |text| == n
  {
    if n == 0 then "" else Pads(n - 1) + "="
  }

  /** `text + "=" * (-len(text) % 4)`. */
  function Padded(text: string): string {
    text + Pads((4 - |text| % 4) % 4)
  }

  /** The symbols of an encoding, without padding. */
  function Symbols(bytes: seq<Byte>): string {
    if bytes == [] then ""
    else if |bytes| == 1 then [Symbol(bytes[0] / 4), Symbol(bytes[0] % 4 * 16)]
    else if |bytes| == 2 then [Symbol(bytes[0] / 4), Symbol(bytes[0] % 4 * 16 + bytes[1] / 16), Symbol(bytes[1] % 16 * 4)]
    else Quantum(bytes[0], bytes[1], bytes[2]) + Symbols(bytes[3..])
  }

  lemma {:induction false} StrippedTail(head: string, n: nat)
    requires head != "" && head[|head| - 1] != '='
    ensures Stripped(head + Pads(n)) == head
  {
    if n == 0 {
      assert head + Pads(0) == head;
    } else {
      assert head + Pads(n) == (head + Pads(n - 1)) + "=";
      StrippedTail(head, n - 1);
    }
  }

  lemma {:induction false} SymbolsEnd(bytes: seq<Byte>)
    requires bytes != []
    ensures Symbols(bytes) != "" && Symbols(bytes)[|Symbols(bytes)| - 1] != '='
    decreases |bytes|
  {
    if |bytes| == 1 {
      SymbolValue(bytes[0] % 4 * 16);
    } else if |bytes| == 2 {
      SymbolValue(bytes[1] % 16 * 4);
    } else {
      QuantumValues(bytes[0], bytes[1], bytes[2]);
      if |bytes| > 3 {
        SymbolsEnd(bytes[3..]);
      } else {
        assert bytes[3..] == [];
      }
    }
  }

  lemma PadAfterQuantum(q: string, rest: string)
    requires |q| == 4
    ensures Padded(q + rest) == q + Padded(rest)
  {
    assert |q + rest| % 4 == |rest| % 4;
  }

  lemma TwoPads()
    ensures Pads(1) == ['='] && Pads(2) == ['=', '=']
  {
    assert Pads(0) == "";
    assert Pads(1) == Pads(0) + "=";
    assert Pads(2) == Pads(1) + "=";
  }

  /** An encoding is its symbols, padded to whole quanta. */
  lemma {:induction false} EncodingIsPaddedSymbols(bytes: seq<Byte>)
    ensures Encode64(bytes) == Padded(Symbols(bytes))
    decreases |bytes|
  {
    if bytes == [] {
    } else if |bytes| == 1 {
      TwoPads();
    } else if |bytes| == 2 {
      TwoPads();
    } else {
      EncodingIsPaddedSymbols(bytes[3..]);
      PadAfterQuantum(Quantum(bytes[0], bytes[1], bytes[2]), Symbols(bytes[3..]));
    }
  }

  /** Stripping an encoding leaves its symbols, and padding them gives it back. */
  lemma PadUndoesStrip(bytes: seq<Byte>)
    requires bytes != []
    ensures Stripped(Encode64(bytes)) == Symbols(bytes) != ""
    ensures Padded(Stripped(Encode64(bytes))) == Encode64(bytes)
  {
    EncodingIsPaddedSymbols(bytes);
    SymbolsEnd(bytes);
    StrippedTail(Symbols(bytes), (4 - |Symbols(bytes)| % 4) % 4);
  }

  // ---------------------------------------------------------------- the token

  function ToBytes(text: string): (bytes: seq<Byte>)
    requires IsAscii(text)
    ensures |bytes| == |text|
  {
    if text == "" then []
    else
      assert text[0] in text && forall c | c in text[1..] :: c in text;
      [text[0] as int] + ToBytes(text[1..])
  }

  /** Decoding bytes as text; bytes outside ASCII cannot start the JSON the tokens hold. */
  function FromBytes(bytes: seq<Byte>): Option<string> {
    if bytes == [] then Some("")
    else
      var rest := FromBytes(bytes[1..]);
      if bytes[0] >= 128 || rest.None? then None else Some([bytes[0] as char] + rest.value)
  }

  const BEFORE_ID := "{\"after_id\":"

  function Payload(id: int): string {
    BEFORE_ID + (Decimal.RenderInt(id) + "}")
  }

  lemma PayloadIsAscii(id: int)
    ensures IsAscii(Payload(id))
  {
    Decimal.RenderedDigits(if id < 0 then -id else id);
    assert IsAscii(BEFORE_ID);
    assert forall c | c in Decimal.RenderInt(id) :: c == '-' || Decimal.IsDigit(c);
  }

  function EncodeToken(id: int): string {
    PayloadIsAscii(id);
    Stripped(Encode64(ToBytes(Payload(id))))
  }

  /** `decode_page_token` of a token that is not empty, on the layout the encoder writes. */
  function DecodeToken(token: string): Option<int> {
    var bytes := Decode64(Padded(token));
    if bytes.None? then None
    else
      var text := FromBytes(bytes.value);
      if text.None? || !(BEFORE_ID <= text.value) then None
      else
        var (id, rest) := Decimal.ReadInt(text.value[|BEFORE_ID|..]);
        if rest == "}" then Some(id) else None
  }

  lemma {:induction false} TextFromBytes(text: string)
    requires IsAscii(text)
    ensures FromBytes(ToBytes(text)) == Some(text)
  {
    if text != "" {
      assert text[0] in text && forall c | c in text[1..] :: c in text;
      TextFromBytes(text[1..]);
      assert ToBytes(text)[1..] == ToBytes(text[1..]);
      assert ToBytes(text)[0] == text[0] as int && text[0] < 128 as char;
      assert text == [text[0]] + text[1..];
    }
  }

  /** Every id survives the token. */
  lemma TokenRoundTrip(id: int)
    ensures DecodeToken(EncodeToken(id)) == Some(id)
    ensures EncodeToken(id) != ""
  {
    PayloadIsAscii(id);
    var text := Payload(id);
    var bytes := ToBytes(text);
    PadUndoesStrip(bytes);
    DecodeEncoded64(bytes);
    TextFromBytes(text);
    assert text[|BEFORE_ID|..] == Decimal.RenderInt(id) + "}";
    Decimal.IntRead(id, "}");
  }

  /** Characters that need no escaping in a URL. */
  predicate UrlSafe(text: string) {
    forall c | c in text :: 'A' <= c <= 'Z' || 'a' <= c <= 'z' || '0' <= c <= '9' || c == '-' || c == '_'
  }

  lemma SymbolIsUrlSafe(n: nat)
    requires n < 64
    ensures UrlSafe([Symbol(n)])
  {
  }

  lemma QuantumIsUrlSafe(a: Byte, b: Byte, c: Byte)
    ensures UrlSafe(Quantum(a, b, c))
  {
    var q := Quantum(a, b, c);
    SymbolIsUrlSafe(a / 4); SymbolIsUrlSafe(a % 4 * 16 + b / 16); SymbolIsUrlSafe(b % 16 * 4 + c / 64); SymbolIsUrlSafe(c % 64);
    assert forall x | x in q :: x in [q[0]] || x in [q[1]] || x in [q[2]] || x in [q[3]];
  }

  lemma {:induction false} SymbolsAreUrlSafe(bytes: seq<Byte>)
    ensures UrlSafe(Symbols(bytes))
    decreases |bytes|
  {
    if |bytes| == 1 {
      QuantumIsUrlSafe(bytes[0], 0, 0);
      var q := Quantum(bytes[0], 0, 0);
      assert Symbols(bytes) == q[..2] && forall c | c in q[..2] :: c in q;
    } else if |bytes| == 2 {
      QuantumIsUrlSafe(bytes[0], bytes[1], 0);
      var q := Quantum(bytes[0], bytes[1], 0);
      assert Symbols(bytes) == q[..3] && forall c | c in q[..3] :: c in q;
    } else if bytes != [] {
      QuantumIsUrlSafe(bytes[0], bytes[1], bytes[2]);
      SymbolsAreUrlSafe(bytes[3..]);
    }
  }

  /** A token goes into a query string as it is: no padding, no plus sign, no slash. */
  lemma TokenIsUrlSafe(id: int)
    ensures UrlSafe(EncodeToken(id))
  {
    PayloadIsAscii(id);
    var bytes := ToBytes(Payload(id));
    PadUndoesStrip(bytes);
    SymbolsAreUrlSafe(bytes);
  }

  /** Tokens as their users see them: a number in and out. */
  datatype Tokens = Tokens(encode: int -> string, decode: string -> Option<int>) {
    ghost predicate RoundTrip() {
      forall id :: encode(id) != "" && decode(encode(id)) == Some(id)
    }
  }

  const TOKENS := Tokens(EncodeToken, DecodeToken)

  lemma TokensRoundTrip()
    ensures TOKENS.RoundTrip()
  {
    forall id
      ensures TOKENS.encode(id) != "" && TOKENS.decode(TOKENS.encode(id)) == Some(id)
    {
      TokenRoundTrip(id);
    }
  }
}
