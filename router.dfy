/** The HTTP layer's request shaping before a statement reaches the
    database: the generic PATCH statement builder, the lab PATCH's SET
    clause, the rewrite of a `*_code` field into the `*_id` column it names,
    and the registration endpoint's normalisation of the document list. A
    request body is an insertion-ordered dictionary, modelled as a list of
    (key, value) pairs. */
module Router {
  import opened Wrappers
  import opened Schema
  import opened Database

  // ----- Insertion-ordered dictionaries -----

  type Dict<V> = seq<(string, V)>

  function Keys<V>(d: Dict<V>): (ks: seq<string>)
    ensures |ks| == |d|
  {
    if d == [] then [] else [d[0].0] + Keys(d[1..])
  }

  /** The keys of `ks` that are in `allowed`, in their order. */
  function KeysIn(ks: seq<string>, allowed: set<string>): seq<string> {
    if ks == [] then []
    else if ks[0] in allowed then [ks[0]] + KeysIn(ks[1..], allowed)
    else KeysIn(ks[1..], allowed)
  }

  /** `ks` with every occurrence of k dropped, the rest in order. */
  function Without(ks: seq<string>, k: string): seq<string> {
    if ks == [] then []
    else if ks[0] == k then Without(ks[1..], k)
    else [ks[0]] + Without(ks[1..], k)
  }

  lemma WithoutAbsent(ks: seq<string>, k: string)
    requires k !in ks
    ensures Without(ks, k) == ks
  {
    if ks != [] {
      assert k !in ks[1..];
      WithoutAbsent(ks[1..], k);
    }
  }

  /** No key is listed twice. */
  predicate DistinctKeys<V>(d: Dict<V>) {
    d == [] || (d[0].0 !in Keys(d[1..]) && DistinctKeys(d[1..]))
  }

  /** `d.get(k)`: the value of the first entry with key k. */
  function Get<V>(d: Dict<V>, k: string): (r: Option<V>)
    ensures r.Some? <==> k in Keys(d)
  {
    if d == [] then None
    else if d[0].0 == k then Some(d[0].1)
    else Get(d[1..], k)
  }

  /** `d[k] = v`: the entry of key k keeps its place and takes the new
      value, or a new entry is appended. */
  function Put<V>(d: Dict<V>, k: string, v: V): (r: Dict<V>)
    ensures Get(r, k) == Some(v)
    ensures forall k' :: k' != k ==> Get(r, k') == Get(d, k')
    ensures Keys(r) == if k in Keys(d) then Keys(d) else Keys(d) + [k]
    ensures DistinctKeys(d) ==> DistinctKeys(r)
  {
    if d == [] then [(k, v)]
    else if d[0].0 == k then
      var r := [(k, v)] + d[1..];
      assert r[1..] == d[1..];
      r
    else
      var rest := Put(d[1..], k, v);
      var r := [d[0]] + rest;
      assert r[1..] == rest;
      assert Keys(d[1..]) + [k] == Keys(d)[1..] + [k];
      r
  }

  /** `d.pop(k, None)`: the entry of key k, if any, is removed. */
  function Pop<V>(d: Dict<V>, k: string): (r: Dict<V>)
    requires DistinctKeys(d)
    ensures Get(r, k).None?
    ensures forall k' :: k' != k ==> Get(r, k') == Get(d, k')
    ensures forall k' :: k' in Keys(r) ==> k' in Keys(d)
    ensures Keys(r) == Without(Keys(d), k)
    ensures DistinctKeys(r)
  {
    if d == [] then []
    else if d[0].0 == k then
      WithoutAbsent(Keys(d[1..]), k);
      d[1..]
    else
      var rest := Pop(d[1..], k);
      var r := [d[0]] + rest;
      assert r[1..] == rest;
      r
  }

  /** `{k: v for k, v in data.items() if k in allowed}`. */
  function Filter<V>(d: Dict<V>, allowed: set<string>): (r: Dict<V>)
    ensures forall k :: Get(r, k) == if k in allowed then Get(d, k) else None
    ensures forall e :: e in r ==> e in d && e.0 in allowed
    ensures r == [] <==> forall k :: k in Keys(d) ==> k !in allowed
    ensures Keys(r) == KeysIn(Keys(d), allowed)
    ensures DistinctKeys(d) ==> DistinctKeys(r)
  {
    if d == [] then []
    else
      var rest := Filter(d[1..], allowed);
      var r := if d[0].0 in allowed then [d[0]] + rest else rest;
      assert d[0].0 in allowed ==> r[1..] == rest;
      r
  }

  // ----- SET clauses -----

  /** `", ".join(parts)`. */
  function Join(parts: seq<string>, sep: string): string {
    if parts == [] then ""
    else if |parts| == 1 then parts[0]
    else parts[0] + sep + Join(parts[1..], sep)
  }

  /** `f"{col} = :{col}"`. */
  function Assignment(col: string): string {
    col + " = :" + col
  }

  function Assignments(cols: seq<string>): seq<string> {
    seq(|cols|, i requires 0 <= i < |cols| => Assignment(cols[i]))
  }

  function SetClause(cols: seq<string>): string {
    Join(Assignments(cols), ", ")
  }

  predicate IdentChar(c: char) {
    ('a' <= c <= 'z') || ('A' <= c <= 'Z') || ('0' <= c <= '9') || c == '_'
  }

  /** A column name: a non-empty run of letters, digits and underscores. */
  predicate IsIdentifier(s: string) {
    |s| > 0 && forall i :: 0 <= i < |s| ==> IdentChar(s[i])
  }

  /** The length of the longest identifier at the start of s. */
  function IdentLength(s: string): (n: nat)
    ensures n <= |s|
    ensures forall i :: 0 <= i < n ==> IdentChar(s[i])
    ensures n < |s| ==> !IdentChar(s[n])
  {
    if s == [] || !IdentChar(s[0]) then 0 else 1 + IdentLength(s[1..])
  }

  /** Reads a SET clause back as the columns it assigns: each item must be
      `col = :col`, and items are separated by `", "`. */
  function ParseSetClause(s: string): Option<seq<string>>
    decreases |s|
  {
    var n := IdentLength(s);
    var col := s[..n];
    var marker := " = :" + col;
    if n == 0 || |s| < n + |marker| || s[n..n + |marker|] != marker then None
    else
      var rest := s[n + |marker|..];
      if rest == [] then Some([col])
      else if |rest| < 2 || rest[..2] != ", " then None
      else
        match ParseSetClause(rest[2..])
        case None => None
        case Some(cols) => Some([col] + cols)
  }

  /** An identifier followed by text that does not continue it is read as
      exactly that identifier. */
  lemma {:induction false} IdentLengthOf(col: string, tail: string)
    requires IsIdentifier(col)
    requires tail == [] || !IdentChar(tail[0])
    ensures IdentLength(col + tail) == |col|
    decreases |col|
  {
    if |col| > 1 {
      assert (col + tail)[1..] == col[1..] + tail;
      IdentLengthOf(col[1..], tail);
    }
  }

  /** One item `col = :col` followed by the rest of the clause is read as
      `col` followed by what the rest reads as. */
  lemma ParseFirstItem(col: string, tail: string)
    requires IsIdentifier(col)
    requires tail == [] || (|tail| >= 2 && tail[..2] == ", ")
    ensures ParseSetClause(Assignment(col) + tail)
      == if tail == [] then Some([col])
         else match ParseSetClause(tail[2..])
              case None => None
              case Some(cols) => Some([col] + cols)
  {
    AssignmentSlices(col, tail);
  }

  /** Where the parser cuts an item followed by the rest of the clause. */
  lemma AssignmentSlices(col: string, tail: string)
    requires IsIdentifier(col)
    requires tail == [] || (|tail| >= 2 && tail[..2] == ", ")
    ensures var s := Assignment(col) + tail;
      var marker := " = :" + col;
      && IdentLength(s) == |col|
      && s[..|col|] == col
      && |s| >= |col| + |marker|
      && s[|col|..|col| + |marker|] == marker
      && s[|col| + |marker|..] == tail
  {
    var marker := " = :" + col;
    var s := Assignment(col) + tail;
    assert s == col + (marker + tail);
    IdentLengthOf(col, marker + tail);
  }

  /** The clause of several columns is the first item, `", "` and the
      clause of the others. */
  lemma SetClauseCons(cols: seq<string>)
    requires |cols| > 1
    ensures SetClause(cols) == Assignment(cols[0]) + ", " + SetClause(cols[1..])
  {
    assert Assignments(cols)[1..] == Assignments(cols[1..]);
  }

  /** The SET clause `_build_update_sql` writes names exactly the patch's
      columns, in the patch's order. */
  lemma {:induction false} SetClauseRoundTrip(cols: seq<string>)
    requires |cols| > 0 && forall i :: 0 <= i < |cols| ==> IsIdentifier(cols[i])
    ensures ParseSetClause(SetClause(cols)) == Some(cols)
    decreases |cols|
  {
    if |cols| == 1 {
      assert SetClause(cols) == Assignment(cols[0]) + "";
      ParseFirstItem(cols[0], "");
      assert [cols[0]] == cols;
    } else {
      SetClauseRoundTrip(cols[1..]);
      ParseCons(cols);
    }
  }

  /** The induction step: a clause whose tail reads back reads back whole. */
  lemma ParseCons(cols: seq<string>)
    requires |cols| > 1 && IsIdentifier(cols[0])
    requires ParseSetClause(SetClause(cols[1..])) == Some(cols[1..])
    ensures ParseSetClause(SetClause(cols)) == Some(cols)
  {
    var tail := ", " + SetClause(cols[1..]);
    SetClauseCons(cols);
    assert SetClause(cols) == Assignment(cols[0]) + tail;
    assert tail[2..] == SetClause(cols[1..]);
    ParseFirstItem(cols[0], tail);
    assert [cols[0]] + cols[1..] == cols;
  }

  // ----- _build_update_sql -----

  datatype HttpError = HttpError(status: int, detail: string)

  /** `_build_update_sql`: the UPDATE statement and its bound parameters,
      or 400 when no listed field is an allowed column. */
  function BuildUpdateSql<V>(
    table: string, idName: string, idValue: V, data: Dict<V>, allowed: set<string>, returning: string)
    : (r: Result<(string, Dict<V>), HttpError>)
    ensures r.Err? <==> forall k :: k in Keys(data) ==> k !in allowed
    ensures r.Err? ==> r.error == HttpError(400, "No fields to update")
    ensures r.Ok? ==>
      && Get(r.value.1, idName) == Some(idValue)
      && forall k :: k != idName ==> Get(r.value.1, k) == if k in allowed then Get(data, k) else None
  {
    var patch := Filter(data, allowed);
    if patch == [] then Err(HttpError(400, "No fields to update"))
    else
      var sql := "UPDATE " + table + " SET " + SetClause(Keys(patch)) + " WHERE " + idName + " = :" + idName
                 + " RETURNING " + returning;
      Ok((sql, Put(patch, idName, idValue)))
  }

  /** The statement's SET clause assigns exactly the allowed fields of the
      request, in request order, each from the parameter of its own name. */
  lemma BuildUpdateSqlSetsAllowedFields<V>(
    table: string, idName: string, idValue: V, data: Dict<V>, allowed: set<string>, returning: string)
    requires forall k :: k in allowed ==> IsIdentifier(k)
    requires BuildUpdateSql(table, idName, idValue, data, allowed, returning).Ok?
    ensures var patch := Filter(data, allowed);
      && BuildUpdateSql(table, idName, idValue, data, allowed, returning).value.0
         == "UPDATE " + table + " SET " + SetClause(Keys(patch)) + " WHERE " + idName + " = :" + idName
            + " RETURNING " + returning
      && ParseSetClause(SetClause(Keys(patch))) == Some(Keys(patch))
      && Keys(patch) == KeysIn(Keys(data), allowed)
      && forall k :: k in Keys(patch) <==> k in Keys(data) && k in allowed
  {
    var patch := Filter(data, allowed);
    forall i | 0 <= i < |Keys(patch)| ensures IsIdentifier(Keys(patch)[i]) {
      assert patch[i] in patch;
    }
    SetClauseRoundTrip(Keys(patch));
    forall k ensures k in Keys(patch) <==> k in Keys(data) && k in allowed {
      assert Get(patch, k).Some? <==> k in Keys(patch);
    }
  }

  // ----- update_lab -----

  const LabColumns: set<string> := {"code", "name", "accreditation_no", "contacts"}

  /** The lab's SET item: `contacts` is cast to jsonb. */
  function LabAssignment(col: string): string {
    if col == "contacts" then "contacts = :contacts::jsonb" else Assignment(col)
  }

  function LabAssignments(cols: seq<string>): seq<string> {
    seq(|cols|, i requires 0 <= i < |cols| => LabAssignment(cols[i]))
  }

  /** `update_lab`'s SET clause and parameters, or 400 when no listed field
      is a lab column; the SET items are built one field at a time. */
  method UpdateLabSql<V>(labId: V, data: Dict<V>) returns (r: Result<(string, Dict<V>), HttpError>)
    ensures var patch := Filter(data, LabColumns);
      && (r.Err? <==> patch == [])
      && (r.Err? ==> r.error == HttpError(400, "No fields to update"))
      && (r.Ok? ==> r.value == (Join(LabAssignments(Keys(patch)), ", "), Put(patch, "id", labId)))
  {
    var patch := Filter(data, LabColumns);
    if patch == [] {
      return Err(HttpError(400, "No fields to update"));
    }
    var sets := LabSetItems(Keys(patch));
    return Ok((Join(sets, ", "), Put(patch, "id", labId)));
  }

  /** The `sets` list of `update_lab`, one item per patch key. */
  method LabSetItems(keys: seq<string>) returns (sets: seq<string>)
    ensures sets == LabAssignments(keys)
  {
    sets := [];
    var i := 0;
    while i < |keys|
      invariant 0 <= i <= |keys|
      invariant |sets| == i && forall j :: 0 <= j < i ==> sets[j] == LabAssignment(keys[j])
    {
      if keys[i] == "contacts" {
        sets := sets + ["contacts = :contacts::jsonb"];
      } else {
        sets := sets + [keys[i] + " = :" + keys[i]];
      }
      i := i + 1;
    }
  }

  /** Without `contacts`, the lab's SET clause is the generic one. */
  lemma LabClauseWithoutContacts(cols: seq<string>)
    requires "contacts" !in cols
    ensures Join(LabAssignments(cols), ", ") == SetClause(cols)
  {
    assert LabAssignments(cols) == Assignments(cols);
  }

  /** With `contacts`, the lab's SET clause differs from the generic one
      exactly in the cast of that item. */
  lemma LabClauseCastsContacts(cols: seq<string>, i: nat)
    requires i < |cols| && cols[i] == "contacts"
    ensures LabAssignments(cols)[i] == Assignments(cols)[i] + "::jsonb"
    ensures forall j :: 0 <= j < |cols| && cols[j] != "contacts" ==> LabAssignments(cols)[j] == Assignments(cols)[j]
  {
  }

  // ----- *_code rewriting -----

  /** The PATCH endpoints' rewrite of a code field: when `codeKey` is
      present its value is looked up in the vocabulary `codes` (a 400 with
      `detail` when unknown, before any UPDATE), then `codeKey` is popped and
      `idKey` is set to the id found. */
  method RewriteCode<V(==)>(data: Dict<V>, codeKey: string, idKey: string, codes: map<V, V>, detail: string)
    returns (r: Result<Dict<V>, HttpError>)
    requires DistinctKeys(data) && codeKey != idKey
    ensures codeKey !in Keys(data) ==> r == Ok(data)
    ensures codeKey in Keys(data) ==>
      var code := Get(data, codeKey).value;
      && (r.Err? <==> code !in codes)
      && (r.Err? ==> r.error == HttpError(400, detail))
      && (r.Ok? ==>
            && Get(r.value, codeKey).None?
            && Get(r.value, idKey) == Some(codes[code])
            && (forall k :: k != codeKey && k != idKey ==> Get(r.value, k) == Get(data, k))
            && Keys(r.value)
               == (var ks := Without(Keys(data), codeKey); if idKey in ks then ks else ks + [idKey])
            && DistinctKeys(r.value))
  {
    if codeKey !in Keys(data) {
      return Ok(data);
    }
    var code := Get(data, codeKey).value;
    if code !in codes {
      return Err(HttpError(400, detail));
    }
    var d := Pop(data, codeKey);
    d := Put(d, idKey, codes[code]);
    return Ok(d);
  }

  /** The id a code resolves to is what the UPDATE binds to the id column,
      whatever id the request itself carried. */
  lemma ResolvedIdReachesUpdate<V>(
    table: string, idName: string, idValue: V, data: Dict<V>, allowed: set<string>, returning: string,
    idKey: string, id: V)
    requires Get(data, idKey) == Some(id) && idKey in allowed && idKey != idName
    ensures BuildUpdateSql(table, idName, idValue, data, allowed, returning).Ok?
    ensures Get(BuildUpdateSql(table, idName, idValue, data, allowed, returning).value.1, idKey) == Some(id)
  {
  }

  // ----- register_check_event -----

  /** `payload.document_ids or []`, then `doc_ids if doc_ids else None`: an
      absent or empty list reaches the database as NULL. */
  function NormalizeDocumentIds(ids: Option<seq<Id>>): (r: Option<seq<Id>>)
    ensures r.None? <==> ids.None? || ids.value == []
    ensures r.Some? ==> r == ids
  {
    if ids.None? || ids.value == [] then None else ids
  }

  /** The normalisation is invisible to `fn_register_check_event`: an empty
      array and NULL link no document and raise nothing. */
  lemma NormalizedRegistrationIsTheSame(db: DB, a: Registration, eventId: Id, now: Timestamp, user: string)
    requires LookupsValid(db.instrumentStatuses, db.resultStatuses, db.planStatuses)
    requires RequirementsWellFormed(db.requirements) && eventId !in db.events
    ensures Register(db, a.(documentIds := NormalizeDocumentIds(a.documentIds)), eventId, now, user)
      == Register(db, a, eventId, now, user)
  {
    var b := a.(documentIds := NormalizeDocumentIds(a.documentIds));
    assert LinkError(db, b.documentIds) == LinkError(db, a.documentIds);
    assert LinksOf(eventId, b.documentIds) == LinksOf(eventId, a.documentIds);
    assert forall r :: ProposedEvent(b, r, now) == ProposedEvent(a, r, now);
  }
}
