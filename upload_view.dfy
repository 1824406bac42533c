/**
 * `UploadDocumentView.post`: encrypt an uploaded record, store it, and write
 * one SearchTokenIndex row for each searchable field whose value is present,
 * not null and not blank after `strip()`.
 */
module UploadDocumentView {
  import opened Wrappers
  import opened Json
  import opened PyText
  import opened Envelope
  import opened Tables

  /** Whether the indexing loop writes a row for `field` of the uploaded record. */
  predicate Indexable(data: Members, field: string)
  {
    match Get(data, field)
    case None => false
    case Some(v) => !v.JNull? && Strip(PyStr(v)) != []
  }

  /** The value that is tokenised for an indexable field: `str(data[field]).strip()`. */
  function IndexValue(data: Members, field: string): string
    requires Indexable(data, field)
  {
    Strip(PyStr(Get(data, field).value))
  }

  /**
   * A field is indexed exactly when the record holds it with a value other
   * than null and other than a string made only of whitespace: every other
   * value prints with a first character that is not whitespace.
   */
  lemma IndexableIff(data: Members, field: string)
    ensures Indexable(data, field) <==>
            field in Keys(data) && !Get(data, field).value.JNull? &&
            !(Get(data, field).value.JStr? && AllSpace(Get(data, field).value.s))
  {
    if field in Keys(data) && !Get(data, field).value.JNull? {
      BlankOnlyForBlankStrings(Get(data, field).value);
    }
  }

  /** The searchable fields, in order, that the loop writes a row for. */
  function KeptFields(fields: seq<string>, data: Members): seq<string>
  {
    if fields == [] then []
    else
      var last := fields[|fields| - 1];
      KeptFields(fields[..|fields| - 1], data) + (if Indexable(data, last) then [last] else [])
  }

  /** Each occurrence of an indexable field is kept once; a field that is not indexable is never kept. */
  lemma {:induction false} KeptFieldsCount(fields: seq<string>, data: Members, f: string)
    ensures multiset(KeptFields(fields, data))[f] == if Indexable(data, f) then multiset(fields)[f] else 0
  {
    if fields != [] {
      var init := fields[..|fields| - 1];
      KeptFieldsCount(init, data, f);
      assert fields == init + [fields[|fields| - 1]];
    }
  }

  /** The row the loop writes for an indexable field whose tokens were computed. */
  function RowFor(eng: Engine, data: Members, field: string, doc: nat): IndexRow
    requires Indexable(data, field)
    requires eng.generateToken(field, IndexValue(data, field)).Some?
    requires eng.hashKeyword(IndexValue(data, field)).Some?
  {
    var value := IndexValue(data, field);
    IndexRow(eng.generateToken(field, value).value, eng.hashKeyword(value).value, doc)
  }

  /** The rows written by the loop, and whether it finished without a crypto call raising. */
  datatype Indexing = Indexing(rows: seq<IndexRow>, ok: bool)

  /** Both token computations for `field` succeed. */
  predicate TokensComputed(eng: Engine, data: Members, field: string)
    requires Indexable(data, field)
  {
    eng.generateToken(field, IndexValue(data, field)).Some? && eng.hashKeyword(IndexValue(data, field)).Some?
  }

  /**
   * The indexing loop over `fields`: rows for the indexable fields in order,
   * stopping at the first field whose token computation raises.
   */
  function IndexRows(eng: Engine, fields: seq<string>, data: Members, doc: nat): Indexing
  {
    if fields == [] then Indexing([], true)
    else
      var prev := IndexRows(eng, fields[..|fields| - 1], data, doc);
      var f := fields[|fields| - 1];
      if !prev.ok || !Indexable(data, f) then prev
      else if TokensComputed(eng, data, f) then Indexing(prev.rows + [RowFor(eng, data, f, doc)], true)
      else Indexing(prev.rows, false)
  }

  /**
   * The loop completes exactly when every indexable field's tokens are
   * computed, and then it has written one row per kept field, in order, each
   * pointing at the new document.
   */
  lemma {:induction false} IndexRowsComplete(eng: Engine, fields: seq<string>, data: Members, doc: nat)
    ensures IndexRows(eng, fields, data, doc).ok <==>
            forall f :: f in KeptFields(fields, data) ==> Indexable(data, f) && TokensComputed(eng, data, f)
    ensures IndexRows(eng, fields, data, doc).ok ==>
            var kept := KeptFields(fields, data);
            var rows := IndexRows(eng, fields, data, doc).rows;
            && |rows| == |kept|
            && forall i :: 0 <= i < |rows| ==>
                 Indexable(data, kept[i]) && TokensComputed(eng, data, kept[i]) &&
                 rows[i] == RowFor(eng, data, kept[i], doc)
  {
    if fields != [] {
      var init := fields[..|fields| - 1];
      var f := fields[|fields| - 1];
      IndexRowsComplete(eng, init, data, doc);
      var prev := IndexRows(eng, init, data, doc);
      if !prev.ok {
        var g :| g in KeptFields(init, data) && !(Indexable(data, g) && TokensComputed(eng, data, g));
        assert g in KeptFields(fields, data);
      }
    }
  }

  /** Every row the loop writes, complete or not, points at the uploaded document. */
  lemma {:induction false} IndexRowsPointAt(eng: Engine, fields: seq<string>, data: Members, doc: nat)
    ensures forall r :: r in IndexRows(eng, fields, data, doc).rows ==> r.document == doc
    ensures |IndexRows(eng, fields, data, doc).rows| <= |KeptFields(fields, data)|
  {
    if fields != [] {
      IndexRowsPointAt(eng, fields[..|fields| - 1], data, doc);
    }
  }

  const UPLOAD_OK_MESSAGE := "Document encrypted and indexed"

  /**
   * `UploadDocumentView.post`. A body that is not a JSON object is refused
   * before anything is encrypted or stored. Otherwise the record is encrypted
   * and stored, then indexed field by field; a crypto call that raises ends
   * the view with UPLOAD_FAILED, and what was written before it stays written.
   */
  method Post(db: Database, eng: Engine, searchable: seq<string>, body: Json) returns (resp: Response)
    requires db.Valid()
    modifies db
    ensures db.Valid()
    ensures db.auditors == old(db.auditors) && db.audits == old(db.audits)
    ensures !body.JObj? ==>
              resp == Reply(ErrorBody("INVALID_JSON", "Invalid JSON object", JNull), HTTP_400_BAD_REQUEST) &&
              db.documents == old(db.documents) && db.index == old(db.index)
    ensures body.JObj? && eng.encryptDocument(body).None? ==>
              resp == Reply(ErrorBody("UPLOAD_FAILED", "Upload failed", JNull), HTTP_400_BAD_REQUEST) &&
              db.documents == old(db.documents) && db.index == old(db.index)
    ensures body.JObj? && eng.encryptDocument(body).Some? ==>
              var doc := |old(db.documents)|;
              var out := IndexRows(eng, searchable, body.members, doc);
              && db.documents == old(db.documents) + [eng.encryptDocument(body).value]
              && db.index == old(db.index) + out.rows
              && resp == if out.ok
                         then Reply(SuccessResponse(JObj([("message", JStr(UPLOAD_OK_MESSAGE))]), JNull), HTTP_201_CREATED)
                         else Reply(ErrorBody("UPLOAD_FAILED", "Upload failed", JNull), HTTP_400_BAD_REQUEST)
  {
    if !body.JObj? {
      var err := ErrorResponse("INVALID_JSON", "Invalid JSON object", JNull);
      return Reply(err, HTTP_400_BAD_REQUEST);
    }
    var data := body.members;
    var encrypted := eng.encryptDocument(body);
    if encrypted.None? {
      var err := ErrorResponse("UPLOAD_FAILED", "Upload failed", JNull);
      return Reply(err, HTTP_400_BAD_REQUEST);
    }
    var doc := |db.documents|;
    db.documents := db.documents + [encrypted.value];
    ghost var before := db.index;

    for i := 0 to |searchable|
      invariant db.documents == old(db.documents) + [encrypted.value]
      invariant db.auditors == old(db.auditors) && db.audits == old(db.audits)
      invariant IndexRows(eng, searchable[..i], data, doc).ok
      invariant db.index == before + IndexRows(eng, searchable[..i], data, doc).rows
    {
      var field := searchable[i];
      assert searchable[..i + 1][..i] == searchable[..i];
      if Get(data, field).Some? && !Get(data, field).value.JNull? {
        var value := Strip(PyStr(Get(data, field).value));
        if value == [] {
          continue;
        }
        var token := eng.generateToken(field, value);
        if token.None? {
          var err := ErrorResponse("UPLOAD_FAILED", "Upload failed", JNull);
          IndexRowsPointAt(eng, searchable[..i], data, doc);
          Unfinished(eng, searchable, i, data, doc);
          return Reply(err, HTTP_400_BAD_REQUEST);
        }
        var externalToken := eng.hashKeyword(value);
        if externalToken.None? {
          var err := ErrorResponse("UPLOAD_FAILED", "Upload failed", JNull);
          IndexRowsPointAt(eng, searchable[..i], data, doc);
          Unfinished(eng, searchable, i, data, doc);
          return Reply(err, HTTP_400_BAD_REQUEST);
        }
        db.index := db.index + [IndexRow(token.value, externalToken.value, doc)];
      }
    }
    assert searchable[..|searchable|] == searchable;
    IndexRowsPointAt(eng, searchable, data, doc);
    var ok := SuccessResponse(JObj([("message", JStr(UPLOAD_OK_MESSAGE))]), JNull);
    return Reply(ok, HTTP_201_CREATED);
  }

  /** Once a field's token computation raises, the rows written so far are the loop's final rows. */
  lemma {:induction false} Unfinished(eng: Engine, fields: seq<string>, i: nat, data: Members, doc: nat)
    requires i < |fields|
    requires IndexRows(eng, fields[..i], data, doc).ok
    requires Indexable(data, fields[i]) && !TokensComputed(eng, data, fields[i])
    ensures IndexRows(eng, fields, data, doc) == Indexing(IndexRows(eng, fields[..i], data, doc).rows, false)
    decreases |fields| - i
  {
    var j := i + 1;
    assert fields[..j][..i] == fields[..i];
    StaysFailed(eng, fields, j, data, doc);
  }

  /** A failed loop stays failed and writes nothing more. */
  lemma {:induction false} StaysFailed(eng: Engine, fields: seq<string>, j: nat, data: Members, doc: nat)
    requires j <= |fields|
    requires !IndexRows(eng, fields[..j], data, doc).ok
    ensures IndexRows(eng, fields, data, doc) == IndexRows(eng, fields[..j], data, doc)
    decreases |fields| - j
  {
    if j == |fields| {
      assert fields[..j] == fields;
    } else {
      assert fields[..j + 1][..j] == fields[..j];
      StaysFailed(eng, fields, j + 1, data, doc);
    }
  }
}
