/**
 * `InternalSearchView.post`: a conjunctive SSE search. Each query field gives
 * a trapdoor; the documents matched are those every trapdoor hits in the
 * token index; at most 50 of them are fetched, decrypted and returned.
 */
module InternalSearchView {
  import opened Wrappers
  import opened Json
  import opened PyText
  import opened Envelope
  import opened Tables
  import UploadDocumentView

  const MAX_INTERNAL_RESULTS := 50

  /** The document ids of the index rows carrying `trapdoor` (`set(values_list("document_id"))`). */
  function TokenMatches(index: seq<IndexRow>, trapdoor: string): set<nat>
  {
    set r | r in index && r.token == trapdoor :: r.document
  }

  function IndexedDocuments(index: seq<IndexRow>): set<nat>
  {
    set r | r in index :: r.document
  }

  /** The documents hit by every trapdoor of a query: the order-free meaning of the search. */
  function MatchAll(index: seq<IndexRow>, trapdoors: set<string>): set<nat>
  {
    set d | d in IndexedDocuments(index) && forall t :: t in trapdoors ==> d in TokenMatches(index, t)
  }

  /** `matching_doc_ids` after the loop has seen the trapdoors `ts` in order (None before the first). */
  function Narrow(index: seq<IndexRow>, ts: seq<string>): Option<set<nat>>
  {
    if ts == [] then None
    else
      var m := TokenMatches(index, ts[|ts| - 1]);
      match Narrow(index, ts[..|ts| - 1])
      case None => Some(m)
      case Some(p) => Some(p * m)
  }

  /** The set of trapdoors a query produced. */
  function FieldSet(ts: seq<string>): set<string>
  {
    set t | t in ts
  }

  /** The loop computes the intersection of the per-field match sets, whatever the field order. */
  lemma {:induction false} NarrowIsMatchAll(index: seq<IndexRow>, ts: seq<string>)
    ensures Narrow(index, ts).None? <==> ts == []
    ensures ts != [] ==> Narrow(index, ts) == Some(MatchAll(index, FieldSet(ts)))
  {
    if ts != [] {
      var init := ts[..|ts| - 1];
      var last := ts[|ts| - 1];
      NarrowIsMatchAll(index, init);
      assert ts == init + [last];
      assert FieldSet(ts) == FieldSet(init) + {last};
      var m := TokenMatches(index, last);
      if init == [] {
        assert FieldSet(ts) == {last};
        forall d | d in m ensures d in MatchAll(index, FieldSet(ts)) {
          var r :| r in index && r.token == last && r.document == d;
          assert d in IndexedDocuments(index);
        }
        assert MatchAll(index, FieldSet(ts)) == m;
      } else {
        var p := MatchAll(index, FieldSet(init));
        forall d ensures d in p * m <==> d in MatchAll(index, FieldSet(ts)) {
        }
        assert p * m == MatchAll(index, FieldSet(ts));
      }
    }
  }

  /** Listing the same fields in another order, or repeating one, gives the same match set. */
  lemma FieldOrderIrrelevant(index: seq<IndexRow>, ts1: seq<string>, ts2: seq<string>)
    requires FieldSet(ts1) == FieldSet(ts2)
    ensures Narrow(index, ts1) == Narrow(index, ts2)
  {
    NarrowIsMatchAll(index, ts1);
    NarrowIsMatchAll(index, ts2);
    if ts1 != [] {
      assert ts1[0] in FieldSet(ts2);
    }
    if ts2 != [] {
      assert ts2[0] in FieldSet(ts1);
    }
  }

  /** Adding a field to a query never enlarges its match set. */
  lemma ExtraFieldNarrows(index: seq<IndexRow>, ts: seq<string>, t: string)
    ensures Narrow(index, ts + [t]).Some?
    ensures ts != [] ==> Narrow(index, ts + [t]).value <= Narrow(index, ts).value
  {
    assert (ts + [t])[..|ts + [t]| - 1] == ts;
  }

  /** A document matches a non-empty query exactly when, for every trapdoor, some index row links it to that trapdoor. */
  lemma MatchAllMeaning(index: seq<IndexRow>, trapdoors: set<string>, d: nat)
    requires trapdoors != {}
    ensures d in MatchAll(index, trapdoors) <==>
            forall t :: t in trapdoors ==> exists r :: r in index && r.token == t && r.document == d
  {
    var t0 :| t0 in trapdoors;
    if forall t :: t in trapdoors ==> exists r :: r in index && r.token == t && r.document == d {
      var r :| r in index && r.token == t0 && r.document == d;
      assert d in IndexedDocuments(index);
    }
  }

  /** The trapdoors of the query items in order; None if `generate_trapdoor` raises on any of them. */
  function Trapdoors(eng: Engine, items: Members): Option<seq<string>>
  {
    if items == [] then Some([])
    else
      var last := items[|items| - 1];
      match (Trapdoors(eng, items[..|items| - 1]), eng.generateTrapdoor(last.0, PyStr(last.1)))
      case (Some(ts), Some(t)) => Some(ts + [t])
      case _ => None
  }

  /** The meta block of a successful internal search (the timing entry is not modelled). */
  function InternalMeta(total: nat, returned: nat, truncated: bool): Json
  {
    JObj([("total_matches", JInt(total)), ("returned_count", JInt(returned)), ("truncated", JBool(truncated))])
  }

  predicate AllDecrypt(eng: Engine, docs: seq<Blob>, ids: seq<nat>)
  {
    forall i :: 0 <= i < |ids| ==> ids[i] < |docs| && eng.decryptDocument(docs[ids[i]]).Some?
  }

  function Decrypted(eng: Engine, docs: seq<Blob>, ids: seq<nat>): seq<Json>
    requires AllDecrypt(eng, docs, ids)
  {
    seq(|ids|, i requires 0 <= i < |ids| => eng.decryptDocument(docs[ids[i]]).value)
  }

  /**
   * `InternalSearchView.post`. An empty or non-object query is refused. Else
   * the match set is the intersection over all query fields; `fetched` are the
   * documents actually read: min(total, 50) of the matches, newest first. The
   * meta reports the full match count, how many were returned, and whether
   * the result was cut short. A crypto call that raises gives
   * INTERNAL_SEARCH_FAILED.
   */
  method Post(db: Database, eng: Engine, query: Json) returns (resp: Response, ghost fetched: seq<nat>)
    requires db.Valid()
    ensures !query.JObj? || query.members == [] ==>
              resp == Reply(ErrorBody("INVALID_QUERY", "Invalid search query", JNull), HTTP_400_BAD_REQUEST)
    ensures query.JObj? && query.members != [] && Trapdoors(eng, query.members).None? ==>
              resp == Reply(ErrorBody("INTERNAL_SEARCH_FAILED", "Search failed", JNull), HTTP_400_BAD_REQUEST)
    ensures query.JObj? && query.members != [] && Trapdoors(eng, query.members).Some? ==>
              var matched := MatchAll(db.index, FieldSet(Trapdoors(eng, query.members).value));
              && |fetched| == Min(|matched|, MAX_INTERNAL_RESULTS)
              && (forall i :: 0 <= i < |fetched| ==> fetched[i] in matched)
              && (forall i, j :: 0 <= i < j < |fetched| ==> fetched[i] > fetched[j])
              && resp == if AllDecrypt(eng, db.documents, fetched)
                         then Reply(SuccessResponse(JObj([("results", JArray(Decrypted(eng, db.documents, fetched)))]),
                                                    InternalMeta(|matched|, |fetched|, |matched| > MAX_INTERNAL_RESULTS)),
                                    HTTP_200_OK)
                         else Reply(ErrorBody("INTERNAL_SEARCH_FAILED", "Search failed", JNull), HTTP_400_BAD_REQUEST)
  {
    fetched := [];
    if !query.JObj? || query.members == [] {
      var err := ErrorResponse("INVALID_QUERY", "Invalid search query", JNull);
      return Reply(err, HTTP_400_BAD_REQUEST), fetched;
    }
    var matching := MatchingDocIds(db, eng, query.members);
    if matching.None? {
      var err := ErrorResponse("INTERNAL_SEARCH_FAILED", "Search failed", JNull);
      return Reply(err, HTTP_400_BAD_REQUEST), fetched;
    }
    var matched := matching.value;

    if matched == {} {
      assert Decrypted(eng, db.documents, fetched) == [];
      var ok := SuccessResponse(JObj([("results", JArray([]))]), InternalMeta(0, 0, false));
      return Reply(ok, HTTP_200_OK), fetched;
    }

    var total := |matched|;
    var truncated := total > MAX_INTERNAL_RESULTS;
    var limited := LimitIds(matched);
    forall d | d in limited ensures d < |db.documents| {
      var r :| r in db.index && r.document == d;
    }
    var ids := NewestFirst(limited, |db.documents|);
    fetched := ids;

    var results := DecryptAll(eng, db.documents, ids);
    if results.None? {
      var err := ErrorResponse("INTERNAL_SEARCH_FAILED", "Search failed", JNull);
      return Reply(err, HTTP_400_BAD_REQUEST), fetched;
    }
    var ok := SuccessResponse(JObj([("results", JArray(results.value))]), InternalMeta(total, |results.value|, truncated));
    return Reply(ok, HTTP_200_OK), fetched;
  }

  /**
   * The loop over the query items: `matching_doc_ids` starts unset, takes the
   * first field's match set, then is intersected with each further one.
   * None when `generate_trapdoor` raises.
   */
  method MatchingDocIds(db: Database, eng: Engine, items: Members) returns (matching: Option<set<nat>>)
    requires items != []
    ensures Trapdoors(eng, items).None? ==> matching.None?
    ensures Trapdoors(eng, items).Some? ==> matching == Some(MatchAll(db.index, FieldSet(Trapdoors(eng, items).value)))
  {
    matching := None;
    ghost var ts: seq<string> := [];
    for i := 0 to |items|
      invariant Trapdoors(eng, items[..i]) == Some(ts)
      invariant matching == Narrow(db.index, ts)
      invariant |ts| == i
    {
      assert items[..i + 1][..i] == items[..i];
      var trapdoor := eng.generateTrapdoor(items[i].0, PyStr(items[i].1));
      if trapdoor.None? {
        NoTrapdoors(eng, items, i);
        return None;
      }
      var tokenDocIds := TokenMatches(db.index, trapdoor.value);
      if matching.None? {
        matching := Some(tokenDocIds);
      } else {
        matching := Some(matching.value * tokenDocIds);
      }
      assert (ts + [trapdoor.value])[..|ts|] == ts;
      ts := ts + [trapdoor.value];
    }
    assert items[..|items|] == items;
    NarrowIsMatchAll(db.index, ts);
  }

  /** `list(matching_doc_ids)[:50]`: some min(total, 50) of the matches; a set has no order, so any of them. */
  method LimitIds(matched: set<nat>) returns (limited: set<nat>)
    ensures limited <= matched
    ensures |limited| == Min(|matched|, MAX_INTERNAL_RESULTS)
  {
    limited := {};
    var remaining := matched;
    while |limited| < MAX_INTERNAL_RESULTS && remaining != {}
      invariant limited <= matched && remaining == matched - limited
      invariant |limited| + |remaining| == |matched|
      invariant |limited| <= MAX_INTERNAL_RESULTS
      decreases remaining
    {
      var d :| d in remaining;
      limited := limited + {d};
      remaining := remaining - {d};
    }
  }

  /** `EncryptedDocument.objects.filter(id__in=limited)`: the chosen documents, newest (highest id) first. */
  method NewestFirst(limited: set<nat>, count: nat) returns (ids: seq<nat>)
    requires forall d :: d in limited ==> d < count
    ensures |ids| == |limited|
    ensures forall i :: 0 <= i < |ids| ==> ids[i] in limited
    ensures forall i, j :: 0 <= i < j < |ids| ==> ids[i] > ids[j]
  {
    ids := [];
    ghost var seen: set<nat> := {};
    var k := count;
    while k > 0
      invariant 0 <= k <= count
      invariant seen == set d | d in limited && k <= d
      invariant |ids| == |seen|
      invariant forall i :: 0 <= i < |ids| ==> ids[i] in seen && k <= ids[i]
      invariant forall i, j :: 0 <= i < j < |ids| ==> ids[i] > ids[j]
    {
      k := k - 1;
      if k in limited {
        assert k !in seen;
        ids := ids + [k];
        seen := seen + {k};
      } else {
        assert seen == set d | d in limited && k <= d;
      }
    }
    assert seen == limited;
  }

  /** `[decrypt_document(doc.encrypted_blob) for doc in encrypted_docs]`; None when a decryption raises. */
  method DecryptAll(eng: Engine, docs: seq<Blob>, ids: seq<nat>) returns (results: Option<seq<Json>>)
    requires forall i :: 0 <= i < |ids| ==> ids[i] < |docs|
    ensures results.Some? <==> AllDecrypt(eng, docs, ids)
    ensures results.Some? ==> results.value == Decrypted(eng, docs, ids)
  {
    var out: seq<Json> := [];
    for i := 0 to |ids|
      invariant AllDecrypt(eng, docs, ids[..i])
      invariant out == Decrypted(eng, docs, ids[..i])
    {
      var plain := eng.decryptDocument(docs[ids[i]]);
      if plain.None? {
        return None;
      }
      out := out + [plain.value];
    }
    assert ids[..|ids|] == ids;
    return Some(out);
  }

  /** Once one item's trapdoor raises, the query has no trapdoor sequence. */
  lemma NoTrapdoors(eng: Engine, items: Members, i: nat)
    requires i < |items|
    requires eng.generateTrapdoor(items[i].0, PyStr(items[i].1)).None?
    ensures Trapdoors(eng, items).None?
  {
    NoTrapdoorsPrefix(eng, items, |items|, i);
    assert items[..|items|] == items;
  }

  lemma {:induction false} NoTrapdoorsPrefix(eng: Engine, items: Members, n: nat, i: nat)
    requires i < n <= |items|
    requires eng.generateTrapdoor(items[i].0, PyStr(items[i].1)).None?
    ensures Trapdoors(eng, items[..n]).None?
    decreases n
  {
    var pre := items[..n];
    assert pre[..n - 1] == items[..n - 1];
    if i < n - 1 {
      NoTrapdoorsPrefix(eng, items, n - 1, i);
    }
  }

  /**
   * An uploaded record is found by an internal search on one of its indexed
   * fields, queried with the value the upload indexed, provided the engine's
   * trapdoor for a (field, value) pair is the token the upload computed for it.
   */
  lemma UploadedRecordIsFound(eng: Engine, fields: seq<string>, data: Members, doc: nat, f: string, index: seq<IndexRow>)
    requires forall g, v :: eng.generateTrapdoor(g, v) == eng.generateToken(g, v)
    requires f in fields && UploadDocumentView.Indexable(data, f)
    requires UploadDocumentView.IndexRows(eng, fields, data, doc).ok
    ensures var q := [(f, JStr(UploadDocumentView.IndexValue(data, f)))];
            && Trapdoors(eng, q).Some?
            && doc in MatchAll(index + UploadDocumentView.IndexRows(eng, fields, data, doc).rows, FieldSet(Trapdoors(eng, q).value))
  {
    var value := UploadDocumentView.IndexValue(data, f);
    var q := [(f, JStr(value))];
    var rows := UploadDocumentView.IndexRows(eng, fields, data, doc).rows;
    var kept := UploadDocumentView.KeptFields(fields, data);
    UploadDocumentView.KeptFieldsCount(fields, data, f);
    assert f in multiset(kept);
    var i :| 0 <= i < |kept| && kept[i] == f;
    UploadDocumentView.IndexRowsComplete(eng, fields, data, doc);
    var row := rows[i];
    assert row == UploadDocumentView.RowFor(eng, data, f, doc);
    assert UploadDocumentView.TokensComputed(eng, data, f);
    assert q[..|q| - 1] == [];
    assert Trapdoors(eng, q[..|q| - 1]) == Some([]);
    var t := eng.generateTrapdoor(f, PyStr(JStr(value)));
    assert t == eng.generateToken(f, value);
    assert q[|q| - 1].0 == f && PyStr(q[|q| - 1].1) == value;
    assert [] + [t.value] == [t.value];
    assert Trapdoors(eng, q) == Some([t.value]);
    assert FieldSet([t.value]) == {t.value};
    assert row in index + rows && row.token == t.value;
    assert doc in IndexedDocuments(index + rows);
  }
}
