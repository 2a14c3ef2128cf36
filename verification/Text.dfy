/** Python string operations shared by the codecs. */
module Text {
  predicate IsAscii(s: string) {
    forall c | c in s :: c < 128 as char
  }

  function ReplaceOne(c: char, mark: char, text: string): string {
    if c == mark then text else [c]
  }

  /** `s.replace(mark, text)` for a one-character `mark`. */
  function Replace(s: string, mark: char, text: string): string {
    if s == "" then "" else ReplaceOne(s[0], mark, text) + Replace(s[1..], mark, text)
  }

  lemma {:induction false} ReplaceConcat(a: string, b: string, mark: char, text: string)
    ensures Replace(a + b, mark, text) == Replace(a, mark, text) + Replace(b, mark, text)
  {
    if a == "" {
      assert a + b == b;
    } else {
      assert (a + b)[1..] == a[1..] + b;
      ReplaceConcat(a[1..], b, mark, text);
    }
  }

  lemma ReplaceSingle(c: char, mark: char, text: string)
    ensures Replace([c], mark, text) == ReplaceOne(c, mark, text)
  {
    assert [c][1..] == "";
  }

  lemma ReplacePair(c: char, d: char, mark: char, text: string)
    ensures Replace([c, d], mark, text) == ReplaceOne(c, mark, text) + ReplaceOne(d, mark, text)
  {
    ReplaceSingle(d, mark, text);
    assert [c, d][1..] == [d];
  }
}
