/** The resume position of file syncs (services/connectivity/app/file_cursor.py): the
    greatest `(mtime_ns, key)` read so far, kept as JSON text. */
module FileCursor {
  import opened Wrappers
  import Decimal

  /** A Python string is a sequence of code points, lone surrogates included. */
  type CodePoint = c: int | 0 <= c < 0x110000
  type Key = seq<CodePoint>

  datatype Version = Version(mtime: int, key: Key)

  // ---------------------------------------------------------------- pair order

  predicate KeyLess(a: Key, b: Key) {
    b != [] && (a == [] || a[0] < b[0] || (a[0] == b[0] && KeyLess(a[1..], b[1..])))
  }

  predicate Less(a: Version, b: Version) {
    a.mtime < b.mtime || (a.mtime == b.mtime && KeyLess(a.key, b.key))
  }

  lemma {:induction false} KeyOrder(a: Key, b: Key)
    ensures KeyLess(a, b) ==> a != b && !KeyLess(b, a)
    ensures KeyLess(a, b) || KeyLess(b, a) || a == b
  {
    if a != [] && b != [] {
      KeyOrder(a[1..], b[1..]);
      assert a == [a[0]] + a[1..] && b == [b[0]] + b[1..];
    }
  }

  lemma {:induction false} KeyTransitive(a: Key, b: Key, c: Key)
    requires KeyLess(a, b) && KeyLess(b, c)
    ensures KeyLess(a, c)
  {
    if a != [] && a[0] == b[0] && b[0] == c[0] {
      KeyTransitive(a[1..], b[1..], c[1..]);
    }
  }

  /** The keys differ first at `i`, where `a` ends or holds the smaller code point. */
  predicate FallsBelowAt(a: Key, b: Key, i: nat) {
    i <= |a| && i < |b| && (forall j | 0 <= j < i :: a[j] == b[j]) && (i == |a| || a[i] < b[i])
  }

  lemma {:induction false} KeyLessIff(a: Key, b: Key)
    ensures KeyLess(a, b) <==> exists i: nat :: FallsBelowAt(a, b, i)
  {
    if a == [] || b == [] || a[0] != b[0] {
      if KeyLess(a, b) {
        assert FallsBelowAt(a, b, 0);
      }
    } else {
      KeyLessIff(a[1..], b[1..]);
      assert a == [a[0]] + a[1..] && b == [b[0]] + b[1..];
      if KeyLess(a, b) {
        var i: nat :| FallsBelowAt(a[1..], b[1..], i);
        forall j | 0 <= j < i + 1
          ensures a[j] == b[j]
        {
          assert j > 0 ==> a[1..][j - 1] == b[1..][j - 1];
        }
        assert FallsBelowAt(a, b, i + 1);
      } else if i: nat :| FallsBelowAt(a, b, i) {
        assert FallsBelowAt(a[1..], b[1..], i - 1);
      }
    }
  }

  /** Pair order: the older version is below, and of two as old the one whose key ends or
      holds a smaller code point where the keys first differ. */
  lemma LessIff(a: Version, b: Version)
    ensures Less(a, b) <==> a.mtime < b.mtime || (a.mtime == b.mtime && exists i: nat :: FallsBelowAt(a.key, b.key, i))
  {
    KeyLessIff(a.key, b.key);
  }

  lemma Order(a: Version, b: Version)
    ensures Less(a, b) ==> a != b && !Less(b, a)
    ensures Less(a, b) || Less(b, a) || a == b
  {
    KeyOrder(a.key, b.key);
  }

  lemma Transitive(a: Version, b: Version, c: Version)
    requires Less(a, b) && Less(b, c)
    ensures Less(a, c)
  {
    if a.mtime == c.mtime {
      KeyTransitive(a.key, b.key, c.key);
    }
  }

  ghost predicate Increasing(s: seq<Version>) {
    forall i, j | 0 <= i < j < |s| :: Less(s[i], s[j])
  }

  function InsertInOrder(v: Version, s: seq<Version>): seq<Version> {
    if s == [] || Less(v, s[0]) then [v] + s else [s[0]] + InsertInOrder(v, s[1..])
  }

  /** `sorted` on pairs. */
  function SortVersions(s: seq<Version>): seq<Version> {
    if s == [] then [] else InsertInOrder(s[0], SortVersions(s[1..]))
  }

  lemma {:induction false} InsertKeeps(v: Version, s: seq<Version>)
    requires Increasing(s) && v !in s
    ensures Increasing(InsertInOrder(v, s)) && Elems(InsertInOrder(v, s)) == Elems(s) + {v}
  {
    if s == [] {
    } else if Less(v, s[0]) {
      forall j | 0 <= j < |s|
        ensures Less(v, s[j])
      {
        if j > 0 { Transitive(v, s[0], s[j]); }
      }
      assert Elems([v] + s) == Elems(s) + {v};
    } else {
      InsertKeeps(v, s[1..]);
      var tail := InsertInOrder(v, s[1..]);
      Order(v, s[0]);
      forall x | x in tail
        ensures Less(s[0], x)
      {
        assert x in Elems(tail);
      }
      assert Elems([s[0]] + tail) == {s[0]} + Elems(tail);
      assert Elems(s) == {s[0]} + Elems(s[1..]) by { assert s == [s[0]] + s[1..]; }
    }
  }

  lemma {:induction false} SortKeeps(s: seq<Version>)
    requires NoDup(s)
    ensures Increasing(SortVersions(s)) && Elems(SortVersions(s)) == Elems(s)
  {
    if s != [] {
      SortKeeps(s[1..]);
      assert s[0] !in Elems(s[1..]);
      InsertKeeps(s[0], SortVersions(s[1..]));
      assert s == [s[0]] + s[1..];
      assert Elems(s) == {s[0]} + Elems(s[1..]);
    }
  }

  // ---------------------------------------------------------------- selection

  /** A stored cursor: none, an envelope, or any other text (a plain key of older syncs). */
  datatype Cursor = NoCursor | Versioned(at: Version) | Legacy(key: Key)

  function MtimeOf(entries: seq<Version>, key: Key): Option<int> {
    if entries == [] then None
    else if entries[0].key == key then Some(entries[0].mtime)
    else MtimeOf(entries[1..], key)
  }

  predicate Includes(cursor: Cursor, legacyMtime: Option<int>, v: Version) {
    match cursor
    case NoCursor => true
    case Versioned(at) => Less(at, v)
    case Legacy(key) => KeyLess(key, v.key) || (legacyMtime.Some? && v.mtime > legacyMtime.value)
  }

  function Keep(entries: seq<Version>, cursor: Cursor, legacyMtime: Option<int>): seq<Version> {
    if entries == [] then []
    else
      var rest := Keep(entries[1..], cursor, legacyMtime);
      if Includes(cursor, legacyMtime, entries[0]) then [entries[0]] + rest else rest
  }

  function KeysOf(versions: seq<Version>): seq<Key> {
    seq(|versions|, i requires 0 <= i < |versions| => versions[i].key)
  }

  function Chosen(entries: seq<Version>, cursor: Cursor): seq<Version> {
    SortVersions(Keep(entries, cursor, if cursor.Legacy? then MtimeOf(entries, cursor.key) else None))
  }

  method SelectFiles(entries: seq<Version>, cursor: Cursor) returns (keys: seq<Key>, newCursor: Cursor)
    ensures var chosen := Chosen(entries, cursor);
            && keys == KeysOf(chosen)
            && newCursor == if chosen == [] then cursor else Versioned(chosen[|chosen| - 1])
  {
    if entries == [] {
      return [], cursor;
    }
    var legacyMtime: Option<int> := None;
    if cursor.Legacy? {
      var n := 0;
      while n < |entries|
        invariant n <= |entries| && legacyMtime.None?
        invariant MtimeOf(entries, cursor.key) == MtimeOf(entries[n..], cursor.key)
      {
        if entries[n].key == cursor.key {
          legacyMtime := Some(entries[n].mtime);
          break;
        }
        assert entries[n..][1..] == entries[n + 1..];
        n := n + 1;
      }
    }
    var chosen := SortVersions(Keep(entries, cursor, legacyMtime));
    if chosen == [] {
      return [], cursor;
    }
    return KeysOf(chosen), Versioned(chosen[|chosen| - 1]);
  }

  lemma {:induction false} KeepIs(entries: seq<Version>, cursor: Cursor, legacyMtime: Option<int>)
    requires NoDup(entries)
    ensures NoDup(Keep(entries, cursor, legacyMtime))
    ensures forall v :: v in Keep(entries, cursor, legacyMtime) <==> v in entries && Includes(cursor, legacyMtime, v)
  {
    if entries != [] {
      KeepIs(entries[1..], cursor, legacyMtime);
      assert entries == [entries[0]] + entries[1..];
    }
  }

  /** After a versioned cursor exactly the listed versions above it are chosen, in order;
      the new cursor is the greatest of them, above the old one. */
  lemma ChosenIsEverythingAbove(entries: seq<Version>, cursor: Cursor)
    requires NoDup(entries) && !cursor.Legacy?
    ensures var chosen := Chosen(entries, cursor);
            && Increasing(chosen)
            && (forall v :: v in chosen <==> v in entries && (cursor.Versioned? ==> Less(cursor.at, v)))
            && (chosen != [] && cursor.Versioned? ==> Less(cursor.at, chosen[|chosen| - 1]))
  {
    KeepIs(entries, cursor, None);
    var kept := Keep(entries, cursor, None);
    SortKeeps(kept);
    forall v
      ensures v in Chosen(entries, cursor) <==> v in kept
    {
      assert v in Elems(kept) <==> v in Elems(Chosen(entries, cursor));
    }
  }

  /** After a plain key exactly the listed versions of later keys are chosen, and those newer
      than the first listed version of the key itself, if it is listed; in pair order. */
  lemma ChosenAfterPlainKey(entries: seq<Version>, key: Key)
    requires NoDup(entries)
    ensures Increasing(Chosen(entries, Legacy(key)))
    ensures forall v :: v in Chosen(entries, Legacy(key)) <==>
              v in entries && (KeyLess(key, v.key) || exists n :: IsFirstOf(entries, n, key) && v.mtime > entries[n].mtime)
  {
    var mtime := MtimeOf(entries, key);
    var kept := Keep(entries, Legacy(key), mtime);
    MtimeIs(entries, key);
    KeepIs(entries, Legacy(key), mtime);
    SortKeeps(kept);
    forall v
      ensures v in Chosen(entries, Legacy(key)) <==> v in kept
    {
      assert v in Elems(kept) <==> v in Elems(Chosen(entries, Legacy(key)));
    }
  }

  predicate IsFirstOf(entries: seq<Version>, n: int, key: Key) {
    0 <= n < |entries| && entries[n].key == key && forall m | 0 <= m < n :: entries[m].key != key
  }

  lemma {:induction false} MtimeIs(entries: seq<Version>, key: Key)
    ensures MtimeOf(entries, key).None? ==> forall n :: !IsFirstOf(entries, n, key)
    ensures MtimeOf(entries, key).Some? ==> exists n :: IsFirstOf(entries, n, key)
    ensures forall n | IsFirstOf(entries, n, key) :: MtimeOf(entries, key) == Some(entries[n].mtime)
  {
    if entries != [] {
      MtimeIs(entries[1..], key);
      if entries[0].key == key {
        assert IsFirstOf(entries, 0, key);
      } else {
        forall n
          ensures IsFirstOf(entries, n, key) <==> IsFirstOf(entries[1..], n - 1, key)
        {
        }
        if n :| IsFirstOf(entries[1..], n, key) {
          assert IsFirstOf(entries, n + 1, key);
        }
      }
    }
  }

  // ---------------------------------------------------------------- the envelope as text

  predicate High(c: CodePoint) { 0xD800 <= c < 0xDC00 }

  predicate Low(c: CodePoint) { 0xDC00 <= c < 0xE000 }

  function Join(high: CodePoint, low: CodePoint): CodePoint
    requires High(high) && Low(low)
  {
    0x10000 + (high - 0xD800) * 0x400 + (low - 0xDC00)
  }

  function Hex(n: nat): char
    requires n < 16
  {
    if n < 10 then '0' + n as char else 'a' + (n - 10) as char
  }

  function HexValue(c: char): (n: Option<int>)
    ensures n.Some? ==> 0 <= n.value < 16
  {
    if '0' <= c <= '9' then Some(c as int - '0' as int)
    else if 'a' <= c <= 'f' then Some(c as int - 'a' as int + 10)
    else if 'A' <= c <= 'F' then Some(c as int - 'A' as int + 10)
    else None
  }

  /** `\uXXXX` for one 16-bit unit. */
  function Unit(n: CodePoint): (text: string)
    requires n < 0x10000
    ensures |text| == 6
  {
    ['\\', 'u', Hex(n / 4096), Hex(n / 256 % 16), Hex(n / 16 % 16), Hex(n % 16)]
  }

  /** The value of `\uXXXX` at the head of `text`. */
  function UnicodeEscape(text: string): (c: Option<CodePoint>)
    ensures c.Some? ==> c.value < 0x10000 && |text| >= 6
  {
    if |text| < 6 || text[0] != '\\' || text[1] != 'u' then None
    else
      var a, b, c, d := HexValue(text[2]), HexValue(text[3]), HexValue(text[4]), HexValue(text[5]);
      if a.None? || b.None? || c.None? || d.None? then None
      else Some(4096 * a.value + 256 * b.value + 16 * c.value + d.value)
  }

  /** The letter of a two-character escape. */
  function ShortEscape(c: CodePoint): Option<char> {
    match c
    case 0x22 => Some('"')
    case 0x5C => Some('\\')
    case 0x0A => Some('n')
    case 0x0D => Some('r')
    case 0x09 => Some('t')
    case 0x08 => Some('b')
    case 0x0C => Some('f')
    case _ => None
  }

  /** What a two-character escape stands for. */
  function ShortValue(letter: char): Option<CodePoint> {
    match letter
    case '"' => Some(0x22)
    case '\\' => Some(0x5C)
    case '/' => Some(0x2F)
    case 'n' => Some(0x0A)
    case 'r' => Some(0x0D)
    case 't' => Some(0x09)
    case 'b' => Some(0x08)
    case 'f' => Some(0x0C)
    case _ => None
  }

  function HighOf(c: CodePoint): (high: CodePoint)
    requires c >= 0x10000
    ensures High(high)
  {
    0xD800 + (c - 0x10000) / 0x400
  }

  function LowOf(c: CodePoint): (low: CodePoint)
    requires c >= 0x10000
    ensures Low(low)
  {
    0xDC00 + (c - 0x10000) % 0x400
  }

  /** `json.dumps` of one code point: everything outside printable ASCII is escaped. */
  function EscapeOne(c: CodePoint): (text: string)
    ensures text != "" && text[0] != '"'
  {
    if ShortEscape(c).Some? then ['\\', ShortEscape(c).value]
    else if 0x20 <= c <= 0x7E then [c as char]
    else if c < 0x10000 then Unit(c)
    else Unit(HighOf(c)) + Unit(LowOf(c))
  }

  function EscapeText(key: Key): string {
    if key == [] then "" else EscapeOne(key[0]) + EscapeText(key[1..])
  }

  /** The code point at the head of a JSON string body, and how much text it took. */
  function ReadOne(text: string): (r: Option<(CodePoint, nat)>)
    requires text != ""
    ensures r.Some? ==> 0 < r.value.1 <= |text|
  {
    if text[0] != '\\' then (if text[0] < ' ' then None else Some((text[0] as int, 1)))
    else if |text| == 1 then None
    else if ShortValue(text[1]).Some? then Some((ShortValue(text[1]).value, 2))
    else
      var c := UnicodeEscape(text);
      if c.None? then None
      else
        var low := UnicodeEscape(text[6..]);
        if High(c.value) && low.Some? && Low(low.value) then Some((Join(c.value, low.value), 12))
        else Some((c.value, 6))
  }

  /** A JSON string body up to its closing quote, and the text after it. */
  function ReadText(text: string): Option<(Key, string)> {
    if text == "" then None
    else if text[0] == '"' then Some(([], text[1..]))
    else
      var one := ReadOne(text);
      if one.None? then None
      else
        var rest := ReadText(text[one.value.1..]);
        if rest.None? then None else Some(([one.value.0] + rest.value.0, rest.value.1))
  }

  /** What a decoder makes of a key: neighbouring surrogates of a pair become one code point. */
  function Merged(key: Key): Key {
    if key == [] then []
    else if |key| > 1 && High(key[0]) && Low(key[1]) then [Join(key[0], key[1])] + Merged(key[2..])
    else [key[0]] + Merged(key[1..])
  }

  ghost predicate NoSplitPair(key: Key) {
    forall i | 0 <= i < |key| - 1 :: !(High(key[i]) && Low(key[i + 1]))
  }

  lemma HexSum(n: nat)
    requires n < 0x10000
    ensures n == 4096 * (n / 4096) + 256 * (n / 256 % 16) + 16 * (n / 16 % 16) + n % 16
    ensures n / 4096 < 16
  {
  }

  lemma HexDigits(n: nat)
    requires n < 16
    ensures HexValue(Hex(n)) == Some(n)
  {
  }

  lemma UnitRead(n: CodePoint, rest: string)
    requires n < 0x10000
    ensures UnicodeEscape(Unit(n) + rest) == Some(n)
  {
    HexSum(n);
    HexDigits(n / 4096); HexDigits(n / 256 % 16); HexDigits(n / 16 % 16); HexDigits(n % 16);
  }

  /** The unit that an escaped code point starts with, if any. */
  function FirstUnit(c: CodePoint): Option<CodePoint> {
    if ShortEscape(c).Some? || 0x20 <= c <= 0x7E then None
    else if c < 0x10000 then Some(c)
    else Some(HighOf(c))
  }

  lemma EscapeStarts(c: CodePoint, tail: string)
    ensures UnicodeEscape(EscapeOne(c) + tail) == FirstUnit(c)
  {
    if FirstUnit(c).Some? {
      if c < 0x10000 {
        UnitRead(c, tail);
      } else {
        UnitRead(HighOf(c), Unit(LowOf(c)) + tail);
        assert EscapeOne(c) + tail == Unit(HighOf(c)) + (Unit(LowOf(c)) + tail);
      }
    }
  }

  /** The tail of a key reads as a low surrogate exactly when it starts with one. */
  lemma LowAhead(key: Key, rest: string)
    ensures var low := UnicodeEscape(EscapeText(key) + ("\"" + rest));
            && (low.Some? && Low(low.value) <==> key != [] && Low(key[0]))
            && (key != [] && Low(key[0]) ==> low == Some(key[0]))
  {
    if key != [] {
      EscapeStarts(key[0], EscapeText(key[1..]) + ("\"" + rest));
      EscapedHead(key, "\"" + rest);
      LowFirst(key[0]);
    } else {
      assert (EscapeText(key) + ("\"" + rest))[0] == '"';
    }
  }

  lemma LowFirst(c: CodePoint)
    ensures Low(c) ==> FirstUnit(c) == Some(c)
    ensures FirstUnit(c).Some? && Low(FirstUnit(c).value) ==> Low(c)
  {
  }

  lemma ReadUnits(high: CodePoint, low: CodePoint, tail: string)
    requires High(high) && Low(low)
    ensures ReadOne(Unit(high) + (Unit(low) + tail)) == Some((Join(high, low), 12))
  {
    var text := Unit(high) + (Unit(low) + tail);
    UnitRead(high, Unit(low) + tail);
    UnitRead(low, tail);
    assert text[6..] == Unit(low) + tail;
  }

  lemma ReadUnit(c: CodePoint, tail: string)
    requires c < 0x10000
    requires High(c) ==> !(UnicodeEscape(tail).Some? && Low(UnicodeEscape(tail).value))
    ensures ReadOne(Unit(c) + tail) == Some((c, 6))
  {
    var text := Unit(c) + tail;
    UnitRead(c, tail);
    assert text[6..] == tail;
  }

  lemma ReadShort(c: CodePoint, tail: string)
    requires ShortEscape(c).Some?
    ensures ReadOne(EscapeOne(c) + tail) == Some((c, 2))
  {
    var text := EscapeOne(c) + tail;
    assert text[0] == '\\' && text[1] == ShortEscape(c).value;
  }

  lemma ReadPlain(c: CodePoint, tail: string)
    requires ShortEscape(c).None? && 0x20 <= c <= 0x7E
    ensures ReadOne(EscapeOne(c) + tail) == Some((c, 1))
  {
    assert (EscapeOne(c) + tail)[0] == c as char;
  }

  lemma JoinSplits(c: CodePoint)
    requires c >= 0x10000
    ensures Join(HighOf(c), LowOf(c)) == c
  {
    var n := c - 0x10000;
    assert n == n / 0x400 * 0x400 + n % 0x400;
  }

  lemma SupplementaryText(c: CodePoint, tail: string)
    requires c >= 0x10000
    ensures EscapeOne(c) + tail == Unit(HighOf(c)) + (Unit(LowOf(c)) + tail)
  {
  }

  lemma ReadSupplementary(c: CodePoint, tail: string)
    requires c >= 0x10000
    ensures ReadOne(EscapeOne(c) + tail) == Some((c, 12))
  {
    SupplementaryText(c, tail);
    ReadUnits(HighOf(c), LowOf(c), tail);
    JoinSplits(c);
  }

  lemma ReadEscaped(c: CodePoint, tail: string)
    requires High(c) ==> !(UnicodeEscape(tail).Some? && Low(UnicodeEscape(tail).value))
    ensures ReadOne(EscapeOne(c) + tail) == Some((c, |EscapeOne(c)|))
  {
    if ShortEscape(c).Some? {
      ReadShort(c, tail);
    } else if 0x20 <= c <= 0x7E {
      ReadPlain(c, tail);
    } else if c < 0x10000 {
      ReadUnit(c, tail);
    } else {
      ReadSupplementary(c, tail);
    }
  }

  lemma ReadTextStep(c: CodePoint, used: nat, head: string, tail: string)
    requires |head| == used && used > 0 && head[0] != '"'
    requires ReadOne(head + tail) == Some((c, used)) && ReadText(tail).Some?
    ensures ReadText(head + tail) == Some(([c] + ReadText(tail).value.0, ReadText(tail).value.1))
  {
    assert (head + tail)[used..] == tail;
  }

  lemma EscapedHead(key: Key, end: string)
    requires key != []
    ensures EscapeText(key) + end == EscapeOne(key[0]) + (EscapeText(key[1..]) + end)
  {
  }

  lemma SplitPairText(key: Key, end: string)
    requires |key| > 1 && High(key[0]) && Low(key[1])
    ensures EscapeText(key) + end == (Unit(key[0]) + Unit(key[1])) + (EscapeText(key[2..]) + end)
  {
    EscapedHead(key, end);
    EscapedHead(key[1..], end);
    assert key[1..][1..] == key[2..];
    assert EscapeOne(key[0]) == Unit(key[0]) && EscapeOne(key[1]) == Unit(key[1]);
  }

  lemma ReadPair(high: CodePoint, low: CodePoint, tail: string)
    requires High(high) && Low(low)
    ensures ReadOne((Unit(high) + Unit(low)) + tail) == Some((Join(high, low), 12))
  {
    ReadUnits(high, low, tail);
    assert (Unit(high) + Unit(low)) + tail == Unit(high) + (Unit(low) + tail);
  }

  /** A split pair at the head of a key reads as one code point. */
  lemma ReadSplitPair(key: Key, end: string)
    requires |key| > 1 && High(key[0]) && Low(key[1])
    requires ReadText(EscapeText(key[2..]) + end).Some?
    ensures var after := ReadText(EscapeText(key[2..]) + end).value;
            ReadText(EscapeText(key) + end) == Some(([Join(key[0], key[1])] + after.0, after.1))
  {
    var after := EscapeText(key[2..]) + end;
    SplitPairText(key, end);
    ReadPair(key[0], key[1], after);
    ReadTextStep(Join(key[0], key[1]), 12, Unit(key[0]) + Unit(key[1]), after);
  }

  lemma ReadWhole(key: Key, rest: string)
    requires key != [] && !(|key| > 1 && High(key[0]) && Low(key[1]))
    requires ReadText(EscapeText(key[1..]) + ("\"" + rest)).Some?
    ensures var after := ReadText(EscapeText(key[1..]) + ("\"" + rest)).value;
            ReadText(EscapeText(key) + ("\"" + rest)) == Some(([key[0]] + after.0, after.1))
  {
    var tail := EscapeText(key[1..]) + ("\"" + rest);
    EscapedHead(key, "\"" + rest);
    LowAhead(key[1..], rest);
    ReadEscaped(key[0], tail);
    ReadTextStep(key[0], |EscapeOne(key[0])|, EscapeOne(key[0]), tail);
  }

  lemma {:induction false} ReadTextGivesMerged(key: Key, rest: string)
    ensures ReadText(EscapeText(key) + ("\"" + rest)) == Some((Merged(key), rest))
    decreases |key|
  {
    if key == [] {
      var end := "\"" + rest;
      assert EscapeText(key) + end == end;
      assert end[1..] == rest;
    } else if |key| > 1 && High(key[0]) && Low(key[1]) {
      ReadTextGivesMerged(key[2..], rest);
      ReadSplitPair(key, "\"" + rest);
    } else {
      ReadTextGivesMerged(key[1..], rest);
      ReadWhole(key, rest);
    }
  }

  lemma {:induction false} MergedIsKeyIff(key: Key)
    ensures |Merged(key)| <= |key|
    ensures Merged(key) == key <==> NoSplitPair(key)
    ensures |Merged(key)| == |key| <==> NoSplitPair(key)
    decreases |key|
  {
    if key != [] {
      if |key| > 1 && High(key[0]) && Low(key[1]) {
        MergedIsKeyIff(key[2..]);
      } else {
        MergedIsKeyIff(key[1..]);
        assert key == [key[0]] + key[1..];
        if NoSplitPair(key[1..]) {
          forall i | 0 <= i < |key| - 1
            ensures !(High(key[i]) && Low(key[i + 1]))
          {
            if i > 0 {
              assert key[i] == key[1..][i - 1] && key[i + 1] == key[1..][i];
            }
          }
        } else {
          var i :| 0 <= i < |key[1..]| - 1 && High(key[1..][i]) && Low(key[1..][i + 1]);
          assert key[1..][i] == key[i + 1] && key[1..][i + 1] == key[i + 1 + 1];
        }
      }
    }
  }

  const BEFORE_MTIME := "{\"v\":2,\"mtime_ns\":"
  const BEFORE_KEY := ",\"key\":\""

  function EncodeCursor(v: Version): string {
    BEFORE_MTIME + (Decimal.RenderInt(v.mtime) + (BEFORE_KEY + (EscapeText(v.key) + ("\"" + "}"))))
  }

  /** `decode_file_cursor` on the layout the encoder writes. */
  function DecodeCursor(text: string): Option<Version> {
    if !(BEFORE_MTIME <= text) then None
    else
      var (mtime, afterMtime) := Decimal.ReadInt(text[|BEFORE_MTIME|..]);
      if !(BEFORE_KEY <= afterMtime) then None
      else
        var key := ReadText(afterMtime[|BEFORE_KEY|..]);
        if key.None? || key.value.1 != "}" then None else Some(Version(mtime, key.value.0))
  }

  lemma DecodeEncoded(v: Version)
    ensures DecodeCursor(EncodeCursor(v)) == Some(Version(v.mtime, Merged(v.key)))
  {
    var body := EscapeText(v.key) + ("\"" + "}");
    var afterMtime := BEFORE_KEY + body;
    assert EncodeCursor(v)[|BEFORE_MTIME|..] == Decimal.RenderInt(v.mtime) + afterMtime;
    assert afterMtime[0] == ',';
    Decimal.IntRead(v.mtime, afterMtime);
    assert afterMtime[|BEFORE_KEY|..] == body;
    ReadTextGivesMerged(v.key, "}");
  }

  /** The envelope decodes to the version it was made from exactly when the key has no high
      surrogate directly followed by a low one, so for every key that is valid Unicode. */
  lemma DecodeUndoesEncodeIff(v: Version)
    ensures DecodeCursor(EncodeCursor(v)) == Some(v) <==> NoSplitPair(v.key)
  {
    DecodeEncoded(v);
    MergedIsKeyIff(v.key);
  }
}
