/** Identifier encodings: SpiceDB object ids (libs/holon_common/spicedb_id.py) and
    tenant-scoped Iceberg table names (libs/holon_common/iceberg_ident.py). Both replace
    characters in a chain; each chain is a prefix code and so can be read back. */
module Identifiers {
  import opened Text
  import opened Wrappers

  // ---------------------------------------------------------------- escape codes

  /** `letters[c]` follows an underscore where `c` stood; `back` is its inverse. */
  datatype Code = Code(letters: map<char, char>, back: map<char, char>) {
    ghost predicate Valid() {
      && '_' in letters
      && (forall c | c in letters :: letters[c] in back && back[letters[c]] == c)
      && (forall l | l in back :: back[l] in letters && letters[back[l]] == l)
    }
  }

  const SPICEDB := Code(map['_' := '_', '.' := 'd', ':' := 'c'], map['_' := '_', 'd' := '.', 'c' := ':'])

  const ICEBERG := Code(map['_' := 'u', '-' := 'd'], map['u' := '_', 'd' := '-'])

  function EncodeOne(code: Code, c: char): string {
    if c in code.letters then ['_', code.letters[c]] else [c]
  }

  function Encode(code: Code, s: string): string {
    if s == "" then "" else EncodeOne(code, s[0]) + Encode(code, s[1..])
  }

  function Decode(code: Code, t: string): Option<string> {
    if t == "" then Some("")
    else if t[0] == '_' then
      if |t| == 1 || t[1] !in code.back then None
      else
        var rest := Decode(code, t[2..]);
        if rest.None? then None else Some([code.back[t[1]]] + rest.value)
    else if t[0] in code.letters then None
    else
      var rest := Decode(code, t[1..]);
      if rest.None? then None else Some([t[0]] + rest.value)
  }

  lemma {:induction false} DecodeUndoesEncode(code: Code, s: string)
    requires code.Valid()
    ensures Decode(code, Encode(code, s)) == Some(s)
  {
    if s != "" {
      DecodeUndoesEncode(code, s[1..]);
      var t, tail := Encode(code, s), Encode(code, s[1..]);
      assert s == [s[0]] + s[1..];
      if s[0] in code.letters {
        assert t[2..] == tail;
      } else {
        assert t[1..] == tail;
      }
    }
  }

  /** Whatever decodes is the encoding of what it decodes to. */
  lemma {:induction false} EncodeUndoesDecode(code: Code, t: string)
    requires code.Valid() && Decode(code, t).Some?
    ensures Encode(code, Decode(code, t).value) == t
    decreases |t|
  {
    if t != "" {
      var tail := if t[0] == '_' then t[2..] else t[1..];
      EncodeUndoesDecode(code, tail);
      assert t == (if t[0] == '_' then ['_', t[1]] else [t[0]]) + tail;
      assert Decode(code, t).value[1..] == Decode(code, tail).value;
    }
  }

  // ---------------------------------------------------------------- chained replaces

  /** `spicedb_object_id`. */
  function SpicedbObjectId(urn: string): string {
    Replace(Replace(Replace(urn, '_', "__"), '.', "_d"), ':', "_c")
  }

  lemma {:induction false} SpicedbIsCode(urn: string)
    ensures SpicedbObjectId(urn) == Encode(SPICEDB, urn)
  {
    if urn != "" {
      SpicedbIsCode(urn[1..]);
      var head := ReplaceOne(urn[0], '_', "__");
      var rest := Replace(urn[1..], '_', "__");
      ReplaceConcat(head, rest, '.', "_d");
      ReplaceConcat(Replace(head, '.', "_d"), Replace(rest, '.', "_d"), ':', "_c");
      ReplaceSingle(urn[0], '.', "_d");
      ReplaceSingle(urn[0], ':', "_c");
      ReplacePair('_', '_', '.', "_d");
      ReplacePair('_', '_', ':', "_c");
      ReplacePair('_', 'd', ':', "_c");
    }
  }

  /** Distinct URNs never share an object id, and no id holds a dot or a colon. */
  lemma SpicedbInjective(a: string, b: string)
    ensures SpicedbObjectId(a) == SpicedbObjectId(b) <==> a == b
  {
    SpicedbIsCode(a);
    SpicedbIsCode(b);
    DecodeUndoesEncode(SPICEDB, a);
    DecodeUndoesEncode(SPICEDB, b);
  }

  lemma {:induction false} SpicedbIdIsAllowed(urn: string)
    ensures forall c | c in SpicedbObjectId(urn) :: c != '.' && c != ':'
  {
    SpicedbIsCode(urn);
    if urn != "" {
      SpicedbIsCode(urn[1..]);
      SpicedbIdIsAllowed(urn[1..]);
    }
  }

  // ---------------------------------------------------------------- the index

  datatype Row = Row(urn: string, data: string)

  /** `index_by_spicedb_object_id`: of rows with one id the last stays. */
  function IndexById(rows: seq<Row>): map<string, Row> {
    if rows == [] then map[]
    else
      var last := rows[|rows| - 1];
      IndexById(rows[..|rows| - 1])[SpicedbObjectId(last.urn) := last]
  }

  predicate HasUrn(rows: seq<Row>, urn: string) {
    exists r | r in rows :: r.urn == urn
  }

  ghost predicate DistinctUrns(rows: seq<Row>) {
    forall i, j | 0 <= i < j < |rows| :: rows[i].urn != rows[j].urn
  }

  /** The index holds, under its id, a row of every URN and of no other. */
  lemma {:induction false} IndexHolds(rows: seq<Row>, urn: string)
    ensures SpicedbObjectId(urn) in IndexById(rows) <==> HasUrn(rows, urn)
    ensures HasUrn(rows, urn) ==> IndexById(rows)[SpicedbObjectId(urn)].urn == urn && IndexById(rows)[SpicedbObjectId(urn)] in rows
  {
    if rows != [] {
      var front, last := rows[..|rows| - 1], rows[|rows| - 1];
      IndexHolds(front, urn);
      SpicedbInjective(last.urn, urn);
      assert rows == front + [last];
    }
  }

  lemma DistinctSnoc(front: seq<Row>, last: Row)
    ensures DistinctUrns(front + [last]) <==> DistinctUrns(front) && !HasUrn(front, last.urn)
  {
    var rows := front + [last];
    if DistinctUrns(rows) {
      forall i, j | 0 <= i < j < |front|
        ensures front[i].urn != front[j].urn
      {
        assert rows[i].urn != rows[j].urn;
      }
      forall i | 0 <= i < |front|
        ensures front[i].urn != last.urn
      {
        assert rows[i].urn != rows[|front|].urn;
      }
    } else {
      var i, j :| 0 <= i < j < |rows| && rows[i].urn == rows[j].urn;
      if j == |front| {
        assert front[i] in front;
      } else {
        assert front[i].urn == front[j].urn;
      }
    }
  }

  lemma PutSize<K, V>(m: map<K, V>, k: K, v: V)
    ensures |m[k := v]| == if k in m then |m| else |m| + 1
  {
    assert m[k := v].Keys == m.Keys + {k};
    if k in m {
      assert m.Keys + {k} == m.Keys;
    }
  }

  /** The index drops no row exactly when the URNs are distinct. */
  lemma {:induction false} IndexDropsNothingIff(rows: seq<Row>)
    ensures |IndexById(rows)| <= |rows|
    ensures |IndexById(rows)| == |rows| <==> DistinctUrns(rows)
  {
    if rows != [] {
      var front, last := rows[..|rows| - 1], rows[|rows| - 1];
      IndexDropsNothingIff(front);
      IndexHolds(front, last.urn);
      PutSize(IndexById(front), SpicedbObjectId(last.urn), last);
      DistinctSnoc(front, last);
      assert rows == front + [last];
    }
  }

  /** With distinct URNs every row is found under the id of its URN. */
  lemma {:induction false} IndexFindsEveryRow(rows: seq<Row>, r: Row)
    requires DistinctUrns(rows) && r in rows
    ensures SpicedbObjectId(r.urn) in IndexById(rows) && IndexById(rows)[SpicedbObjectId(r.urn)] == r
  {
    assert HasUrn(rows, r.urn);
    IndexHolds(rows, r.urn);
    var found := IndexById(rows)[SpicedbObjectId(r.urn)];
    var i :| 0 <= i < |rows| && rows[i] == r;
    var j :| 0 <= j < |rows| && rows[j] == found;
    assert rows[i].urn == rows[j].urn;
  }

  // ---------------------------------------------------------------- Iceberg table names

  /** The characters `str.strip` removes. */
  predicate IsSpace(c: char) {
    var n := c as int;
    || 9 <= n <= 13 || 28 <= n <= 32 || n == 0x85 || n == 0xA0 || n == 0x1680
    || 0x2000 <= n <= 0x200A || n == 0x2028 || n == 0x2029 || n == 0x202F || n == 0x205F || n == 0x3000
  }

  function Strip(s: string): string {
    if s != "" && IsSpace(s[0]) then Strip(s[1..])
    else if s != "" && IsSpace(s[|s| - 1]) then Strip(s[..|s| - 1])
    else s
  }

  predicate IsLetter(c: char) {
    'A' <= c <= 'Z' || 'a' <= c <= 'z'
  }

  predicate IsWord(c: char) {
    IsLetter(c) || '0' <= c <= '9' || c == '_'
  }

  /** A letter, then letters, digits and underscores. */
  predicate IsTableName(s: string) {
    s != "" && IsLetter(s[0]) && forall c | c in s :: IsWord(c)
  }

  /** The same with hyphens. */
  predicate IsTenantId(s: string) {
    s != "" && IsLetter(s[0]) && forall c | c in s :: IsWord(c) || c == '-'
  }

  datatype IdentError = TenantRequired | InvalidTenant | InvalidEncoding | TableRequired | InvalidTable

  /** `iceberg_tenant_prefix`. */
  function TenantPrefix(tenant: string): Result<string, IdentError> {
    var id := Strip(tenant);
    if id == "" then Err(TenantRequired)
    else if !IsTenantId(id) then Err(InvalidTenant)
    else
      var encoded := Replace(Replace(id, '_', "_u"), '-', "_d");
      if !IsTableName(encoded) then Err(InvalidEncoding) else Ok(encoded)
  }

  /** The table part of an identifier, checked. */
  function CheckedTable(table: string): Result<string, IdentError> {
    var name := Strip(table);
    if name == "" then Err(TableRequired) else if !IsTableName(name) then Err(InvalidTable) else Ok(name)
  }

  /** `iceberg_table_identifier`, within the one namespace. */
  function TableIdentifier(tenant: string, table: string): Result<string, IdentError> {
    var name := CheckedTable(table);
    if name.Err? then name
    else
      var prefix := TenantPrefix(tenant);
      if prefix.Err? then prefix else Ok(prefix.value + "__" + name.value)
  }

  /** `iceberg_read_identifiers`: the prefixed name, then the unprefixed name of old tables. */
  function ReadIdentifiers(tenant: string, table: string): Result<seq<string>, IdentError> {
    var current := TableIdentifier(tenant, table);
    if current.Err? then Err(current.error)
    else
      var legacy := CheckedTable(table);
      if legacy.Err? then Err(legacy.error)
      else if current.value == legacy.value then Ok([current.value]) else Ok([current.value, legacy.value])
  }

  lemma {:induction false} PrefixIsCode(id: string)
    ensures Replace(Replace(id, '_', "_u"), '-', "_d") == Encode(ICEBERG, id)
  {
    if id != "" {
      PrefixIsCode(id[1..]);
      var head := ReplaceOne(id[0], '_', "_u");
      ReplaceConcat(head, Replace(id[1..], '_', "_u"), '-', "_d");
      ReplaceSingle(id[0], '-', "_d");
      ReplacePair('_', 'u', '-', "_d");
    }
  }

  /** Every underscore of an encoded tenant is followed by a letter, so `__` is not in it and
      it does not end in one. */
  predicate NoDouble(t: string) {
    forall i | 0 <= i < |t| && t[i] == '_' :: i + 1 < |t| && t[i + 1] != '_'
  }

  lemma {:induction false} EncodedIsName(id: string)
    requires forall c | c in id :: IsWord(c) || c == '-'
    ensures (forall c | c in Encode(ICEBERG, id) :: IsWord(c)) && NoDouble(Encode(ICEBERG, id))
    ensures id != "" && IsLetter(id[0]) ==> Encode(ICEBERG, id) != "" && Encode(ICEBERG, id)[0] == id[0]
  {
    if id != "" {
      assert id[0] in id && forall c | c in id[1..] :: c in id;
      EncodedIsName(id[1..]);
      var head, tail := EncodeOne(ICEBERG, id[0]), Encode(ICEBERG, id[1..]);
      forall i | 0 <= i < |head + tail| && (head + tail)[i] == '_'
        ensures i + 1 < |head + tail| && (head + tail)[i + 1] != '_'
      {
        if i >= |head| {
          assert tail[i - |head|] == '_';
        }
      }
    }
  }

  /** The check after encoding never fails: a tenant id is accepted exactly when it is
      well-formed once stripped. */
  lemma PrefixAcceptedIff(tenant: string)
    ensures TenantPrefix(tenant).Ok? <==> IsTenantId(Strip(tenant))
    ensures TenantPrefix(tenant).Ok? ==> TenantPrefix(tenant).value == Encode(ICEBERG, Strip(tenant)) && NoDouble(TenantPrefix(tenant).value)
    ensures TenantPrefix(tenant) != Err(InvalidEncoding)
  {
    var id := Strip(tenant);
    PrefixIsCode(id);
    if IsTenantId(id) {
      EncodedIsName(id);
    }
  }

  /** Where the first `__` of a name stands, or its length. */
  function FirstDouble(name: string): (k: nat)
    ensures k <= |name|
  {
    if |name| < 2 then |name|
    else if name[0] == '_' && name[1] == '_' then 0
    else 1 + FirstDouble(name[1..])
  }

  lemma {:induction false} FirstDoubleIsDelimiter(prefix: string, rest: string)
    requires NoDouble(prefix)
    ensures FirstDouble(prefix + "__" + rest) == |prefix|
  {
    var name := prefix + "__" + rest;
    if prefix != "" {
      assert name[1..] == prefix[1..] + "__" + rest;
      if prefix[0] == '_' {
        assert name[1] == prefix[1];
      }
      forall i | 0 <= i < |prefix[1..]| && prefix[1..][i] == '_'
        ensures i + 1 < |prefix[1..]| && prefix[1..][i + 1] != '_'
      {
        assert prefix[i + 1] == '_';
      }
      FirstDoubleIsDelimiter(prefix[1..], rest);
    }
  }

  /** The (tenant, table) a name was made for, if any. */
  function Recover(name: string): Option<(string, string)> {
    var k := FirstDouble(name);
    if k + 2 > |name| then None
    else
      var tenant, table := Decode(ICEBERG, name[..k]), name[k + 2..];
      if tenant.None? || !IsTenantId(tenant.value) || !IsTableName(table) then None else Some((tenant.value, table))
  }

  lemma {:induction false} StripIdempotent(s: string)
    ensures Strip(Strip(s)) == Strip(s)
  {
    if s != "" && IsSpace(s[0]) {
      StripIdempotent(s[1..]);
    } else if s != "" && IsSpace(s[|s| - 1]) {
      StripIdempotent(s[..|s| - 1]);
    }
  }

  predicate AllSpace(s: string) {
    forall c | c in s :: IsSpace(c)
  }

  /** Stripping takes the spaces at both ends and nothing else. */
  lemma {:induction false} StripIs(s: string) returns (before: string, after: string)
    ensures s == before + Strip(s) + after && AllSpace(before) && AllSpace(after)
    ensures Strip(s) != "" ==> !IsSpace(Strip(s)[0]) && !IsSpace(Strip(s)[|Strip(s)| - 1])
    decreases |s|
  {
    if s != "" && IsSpace(s[0]) {
      before, after := StripIs(s[1..]);
      before := [s[0]] + before;
      assert s == [s[0]] + s[1..];
    } else if s != "" && IsSpace(s[|s| - 1]) {
      before, after := StripIs(s[..|s| - 1]);
      after := after + [s[|s| - 1]];
      assert s == s[..|s| - 1] + [s[|s| - 1]];
    } else {
      before, after := "", "";
    }
  }

  lemma StripName(s: string)
    requires IsTenantId(s)
    ensures Strip(s) == s
  {
    assert s[0] in s && s[|s| - 1] in s;
  }

  /** The first `__` of a table identifier is the tenant delimiter, and the identifier gives
      both parts back. */
  lemma RecoverUndoesIdentifier(tenant: string, table: string)
    requires TableIdentifier(tenant, table).Ok?
    ensures var name := TableIdentifier(tenant, table).value;
            && FirstDouble(name) == |TenantPrefix(tenant).value|
            && Recover(name) == Some((Strip(tenant), Strip(table)))
  {
    PrefixAcceptedIff(tenant);
    var prefix := TenantPrefix(tenant).value;
    FirstDoubleIsDelimiter(prefix, Strip(table));
    var name := TableIdentifier(tenant, table).value;
    assert name[..|prefix|] == prefix && name[|prefix| + 2..] == Strip(table);
    DecodeUndoesEncode(ICEBERG, Strip(tenant));
  }

  /** Two identifiers are the same exactly when tenant and table are, up to spaces around. */
  lemma IdentifierInjective(tenant: string, table: string, tenant': string, table': string)
    requires TableIdentifier(tenant, table).Ok? && TableIdentifier(tenant', table').Ok?
    ensures TableIdentifier(tenant, table) == TableIdentifier(tenant', table')
            <==> Strip(tenant) == Strip(tenant') && Strip(table) == Strip(table')
  {
    RecoverUndoesIdentifier(tenant, table);
    RecoverUndoesIdentifier(tenant', table');
  }

  lemma {:induction false} FirstDoubleFound(name: string)
    requires FirstDouble(name) + 2 <= |name|
    ensures name[FirstDouble(name)] == '_' && name[FirstDouble(name) + 1] == '_'
  {
    if |name| >= 2 && !(name[0] == '_' && name[1] == '_') {
      FirstDoubleFound(name[1..]);
    }
  }

  /** A recovered pair is the pair the name is made from. */
  lemma IdentifierUndoesRecover(name: string)
    requires Recover(name).Some?
    ensures TableIdentifier(Recover(name).value.0, Recover(name).value.1) == Ok(name)
  {
    var k := FirstDouble(name);
    var tenant, table := Recover(name).value.0, Recover(name).value.1;
    FirstDoubleFound(name);
    EncodeUndoesDecode(ICEBERG, name[..k]);
    StripName(tenant);
    StripName(table);
    PrefixAcceptedIff(tenant);
    assert name == name[..k] + "__" + table;
  }

  /** A table is refused before its tenant is looked at, each for being empty or else for its
      characters. Otherwise reads try just two names, which differ: the tenant, encoded, in
      front of the table, and the table alone. */
  lemma ReadTries(tenant: string, table: string)
    ensures var id, name := Strip(tenant), Strip(table);
            ReadIdentifiers(tenant, table)
            == if |name| == 0 then Err(TableRequired)
               else if !IsTableName(name) then Err(InvalidTable)
               else if |id| == 0 then Err(TenantRequired)
               else if !IsTenantId(id) then Err(InvalidTenant)
               else Ok([Encode(ICEBERG, id) + "__" + name, name])
  {
    PrefixAcceptedIff(tenant);
    var id, name := Strip(tenant), Strip(table);
    if IsTableName(name) && IsTenantId(id) {
      assert |Encode(ICEBERG, id) + "__" + name| != |name|;
    }
  }

  /** Reads also try the bare dataset name, and that alias is some tenant's prefixed name
      exactly when the dataset name itself reads as a tenant, `__` and a table. */
  lemma LegacyAliasIsPrefixedIff(tenant: string, table: string)
    requires ReadIdentifiers(tenant, table).Ok?
    ensures (exists t, n :: TableIdentifier(t, n) == Ok(Strip(table))) <==> Recover(Strip(table)).Some?
    ensures FirstDouble(Strip(table)) + 2 > |Strip(table)| ==> forall t, n :: TableIdentifier(t, n) != Ok(Strip(table))
  {
    forall t, n | TableIdentifier(t, n) == Ok(Strip(table))
      ensures Recover(Strip(table)).Some?
    {
      RecoverUndoesIdentifier(t, n);
    }
    if Recover(Strip(table)).Some? {
      IdentifierUndoesRecover(Strip(table));
    }
  }
}
