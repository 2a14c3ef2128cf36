/** Decimal rendering and reading of numbers, as Python's `str` and `json` do it. */
module Decimal {
  function Digit(n: nat): char
    requires n < 10
  {
    '0' + n as char
  }

  predicate IsDigit(c: char) {
    '0' <= c <= '9'
  }

  function Render(n: nat): string {
    if n < 10 then [Digit(n)] else Render(n / 10) + [Digit(n % 10)]
  }

  function RenderInt(n: int): string {
    if n < 0 then "-" + Render(-n) else Render(n)
  }

  /** Reads the digits at the head of `text` onto `value`; the rest is left. */
  function ReadDigits(text: string, value: nat): (nat, string) {
    if text == "" || !IsDigit(text[0]) then (value, text)
    else ReadDigits(text[1..], 10 * value + (text[0] as int - '0' as int))
  }

  lemma {:induction false} ReadRendered(n: nat, rest: string)
    ensures ReadDigits(Render(n) + rest, 0) == ReadDigits(rest, n)
  {
    if n < 10 {
      assert ([Digit(n)] + rest)[1..] == rest;
    } else {
      var last := [Digit(n % 10)] + rest;
      assert Render(n) + rest == Render(n / 10) + last;
      ReadRendered(n / 10, last);
      assert last[1..] == rest;
      assert ReadDigits(last, n / 10) == ReadDigits(rest, 10 * (n / 10) + n % 10);
    }
  }

  lemma {:induction false} RenderedDigits(n: nat)
    ensures Render(n) != "" && forall c | c in Render(n) :: IsDigit(c)
  {
    if n >= 10 {
      RenderedDigits(n / 10);
    }
  }

  /** An integer at the head of `text`, and the text after it. */
  function ReadInt(text: string): (int, string) {
    if text != "" && text[0] == '-' then
      var (magnitude, rest) := ReadDigits(text[1..], 0);
      (0 - magnitude, rest)
    else
      var (n, rest) := ReadDigits(text, 0);
      (n, rest)
  }

  lemma IntRead(n: int, rest: string)
    requires rest != "" && !IsDigit(rest[0])
    ensures ReadInt(RenderInt(n) + rest) == (n, rest)
  {
    var magnitude: nat := if n < 0 then -n else n;
    ReadRendered(magnitude, rest);
    RenderedDigits(magnitude);
    var digits := Render(magnitude);
    assert digits[0] in digits;
    if n < 0 {
      assert (RenderInt(n) + rest)[1..] == digits + rest;
    }
  }
}
