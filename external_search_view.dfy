/**
 * `ExternalSearchView.post`: a PEKS search by an external auditor who sends
 * only a keyword hash and a signature over it. Requests are checked in a fixed
 * order (missing fields, unknown auditor, bad signature); an accepted search
 * answers with exactly 50 result entries, real matches first and padding
 * after, and writes one audit row.
 */
module ExternalSearchView {
  import opened Wrappers
  import opened Json
  import opened PyText
  import opened Envelope
  import opened Tables

  const MAX_EXTERNAL_RESULTS := 50

  /** The clock is read in microseconds; `timedelta(hours=1)`. */
  const ONE_HOUR := 3_600_000_000

  function Zeros(n: nat): (z: string)
    ensures |z| == n && forall i :: 0 <= i < n ==> z[i] == '0'
  {
    seq(n, _ => '0')
  }

  /** A result entry for a matched index row: the stored nonce and ciphertext of its document. */
  function RealEntry(blob: Blob): Json
  {
    JObj([("nonce", JStr(blob.nonce)), ("ciphertext", JStr(blob.ciphertext))])
  }

  /** The filler entry: a 24-character zero nonce, a 64-character zero ciphertext, flagged as padded. */
  function PaddingEntry(): Json
  {
    JObj([("nonce", JStr(Zeros(24))), ("ciphertext", JStr(Zeros(64))), ("padded", JBool(true))])
  }

  /** The document blobs can never produce the padding entry's shape, so a client can tell them apart. */
  lemma PaddingIsRecognisable(blob: Blob)
    ensures RealEntry(blob) != PaddingEntry()
  {
    assert |RealEntry(blob).members| == 2;
  }

  /** `int(v)` as Django's integer primary key applies it to the `auditor_id` it is given; None where it raises. */
  function AuditorKey(v: Json): Option<int>
  {
    match v
    case JInt(n) => Some(n)
    case JBool(b) => Some(if b then 1 else 0)
    case JStr(s) => ParseInt(Strip(s))
    case _ => None
  }

  predicate IsDigit(c: char)
  {
    '0' <= c <= '9'
  }

  function DigitsValue(s: string): nat
    requires forall i :: 0 <= i < |s| ==> IsDigit(s[i])
  {
    if s == [] then 0
    else
      assert IsDigit(s[|s| - 1]);
      10 * DigitsValue(s[..|s| - 1]) + (s[|s| - 1] as int - '0' as int)
  }

  /** An optionally signed run of decimal digits. */
  function ParseInt(s: string): Option<int>
  {
    var sign := if s != [] && (s[0] == '-' || s[0] == '+') then 1 else 0;
    var body := s[sign..];
    if body == [] || !(forall i :: 0 <= i < |body| ==> IsDigit(body[i])) then None
    else if sign == 1 && s[0] == '-' then Some(-(DigitsValue(body) as int))
    else Some(DigitsValue(body))
  }

  /** The decimal text of a natural number parses back to it. */
  lemma {:induction false} ParseDigits(n: nat)
    ensures forall i :: 0 <= i < |Digits(n)| ==> IsDigit(Digits(n)[i])
    ensures DigitsValue(Digits(n)) == n
  {
    if n >= 10 {
      ParseDigits(n / 10);
      var d := Digits(n);
      assert d[..|d| - 1] == Digits(n / 10);
    }
  }

  /** `int(str(n)) == n`: the text of an integer parses back to it. */
  lemma ParseIntStr(n: int)
    ensures ParseInt(IntStr(n)) == Some(n)
  {
    var s := IntStr(n);
    var m := if n < 0 then -n else n;
    ParseDigits(m);
    if n < 0 {
      assert s[1..] == Digits(m);
    } else {
      assert s[0..] == Digits(m);
    }
  }

  /** An auditor id sent as the decimal text of an integer selects the same auditor as the integer. */
  lemma AuditorKeyOfText(n: int)
    ensures AuditorKey(JStr(IntStr(n))) == Some(n)
  {
    var s := IntStr(n);
    var m := if n < 0 then -n else n;
    ParseDigits(m);
    assert s[|s| - 1] == Digits(m)[|Digits(m)| - 1];
    StripKeepsTrimmed(s);
    ParseIntStr(n);
  }

  /** Where the ordered validation of a request ends. */
  datatype Verdict =
    | NotAnObject          // `request.data.get` is not available: the view raises
    | MissingFields
    | UnusableAuditorId    // the id cannot be converted to an integer: the lookup raises
    | AuditorNotFound
    | InvalidSignature(auditor: int)
    | Accepted(auditor: int)

  /** The request fields (None when absent). */
  function Field(body: Json, name: string): Option<Json>
    requires body.JObj?
  {
    Get(body.members, name)
  }

  /** `bool(request.data.get(name))`. */
  predicate Present(body: Json, name: string)
    requires body.JObj?
  {
    Field(body, name).Some? && Truthy(Field(body, name).value)
  }

  /** The validation order of the view: fields, then the auditor, then the signature. */
  function Validate(auditors: map<int, AuditorRow>, eng: Engine, body: Json): Verdict
  {
    if !body.JObj? then NotAnObject
    else if !Present(body, "auditor_id") || !Present(body, "keyword_hash") || !Present(body, "signature") then MissingFields
    else match AuditorKey(Field(body, "auditor_id").value)
      case None => UnusableAuditorId
      case Some(key) =>
        if key !in auditors then AuditorNotFound
        else if !eng.verifySignature(Field(body, "keyword_hash").value, Field(body, "signature").value, auditors[key].publicKey)
        then InvalidSignature(key)
        else Accepted(key)
  }

  /** A request missing any of the three fields is refused as such, whoever the auditor and whatever the signature. */
  lemma MissingFieldsComeFirst(auditors: map<int, AuditorRow>, eng: Engine, body: Json, name: string)
    requires body.JObj? && name in ["auditor_id", "keyword_hash", "signature"] && !Present(body, name)
    ensures Validate(auditors, eng, body) == MissingFields
  {
  }

  /** A signature is only ever checked, and a search only ever run, for an auditor that exists. */
  lemma SignatureOnlyForKnownAuditors(auditors: map<int, AuditorRow>, eng: Engine, body: Json)
    ensures Validate(auditors, eng, body).InvalidSignature? ==> Validate(auditors, eng, body).auditor in auditors
    ensures Validate(auditors, eng, body).Accepted? ==>
              && Validate(auditors, eng, body).auditor in auditors
              && eng.verifySignature(Field(body, "keyword_hash").value, Field(body, "signature").value,
                                     auditors[Validate(auditors, eng, body).auditor].publicKey)
  {
  }

  /** `SearchTokenIndex.objects.filter(external_token=hash).count()`: matching index ROWS, not distinct documents. */
  function CountMatches(index: seq<IndexRow>, hash: string): nat
  {
    if index == [] then 0
    else CountMatches(index[..|index| - 1], hash) + (if index[|index| - 1].externalToken == hash then 1 else 0)
  }

  lemma {:induction false} CountMatchesPrefix(index: seq<IndexRow>, hash: string, i: nat)
    requires i <= |index|
    ensures CountMatches(index[..i], hash) <= CountMatches(index, hash)
    decreases |index| - i
  {
    if i < |index| {
      CountMatchesPrefix(index, hash, i + 1);
      assert index[..i + 1][..i] == index[..i];
    } else {
      assert index[..i] == index;
    }
  }

  /** The audit rows of `auditor` created within the hour before `now`. */
  function RecentSearches(audits: seq<AuditRow>, auditor: int, now: int): nat
  {
    if audits == [] then 0
    else
      var last := audits[|audits| - 1];
      RecentSearches(audits[..|audits| - 1], auditor, now) +
      (if last.auditor == auditor && last.createdAt >= now - ONE_HOUR then 1 else 0)
  }

  /** The audit row an accepted or refused-signature search writes. */
  function AuditFor(auditor: int, row: AuditorRow, keywordHash: Json, total: nat, success: bool, now: int): AuditRow
  {
    AuditRow(auditor, PyStr(keywordHash), total, Min(total, MAX_EXTERNAL_RESULTS),
             total > MAX_EXTERNAL_RESULTS, success, row.keyVersion, now)
  }

  /** The meta block of an accepted search (timing entries are not modelled). */
  function ExternalMeta(total: nat, auditLogId: nat, searchesLastHour: nat, keyVersion: int): Json
  {
    JObj([("total_matches", JInt(total)),
          ("returned_count", JInt(Min(total, MAX_EXTERNAL_RESULTS))),
          ("truncated", JBool(total > MAX_EXTERNAL_RESULTS)),
          ("audit_log_id", JInt(auditLogId)),
          ("searches_last_hour", JInt(searchesLastHour)),
          ("key_version_used", JInt(keyVersion)),
          ("response_padded", JBool(total < MAX_EXTERNAL_RESULTS))])
  }

  /**
   * The meta block describes the results list it is sent with: returned_count
   * is the number of real entries, response_padded says whether any entry is
   * filler, and truncated says whether matches were left out.
   */
  lemma MetaDescribesResults(results: seq<Json>, docs: seq<Blob>, index: seq<IndexRow>, picked: seq<nat>,
                             total: nat, auditLogId: nat, recent: nat, keyVersion: int)
    requires PaddedResults(results, docs, index, picked)
    requires |picked| == Min(total, MAX_EXTERNAL_RESULTS)
    ensures var meta := ExternalMeta(total, auditLogId, recent, keyVersion).members;
            && Get(meta, "returned_count") == Some(JInt(|picked|))
            && (forall i :: 0 <= i < |results| ==> (results[i] == PaddingEntry() <==> i >= |picked|))
            && (Get(meta, "response_padded") == Some(JBool(true)) <==> PaddingEntry() in results)
            && (Get(meta, "truncated") == Some(JBool(true)) <==> total > |picked|)
  {
    var meta := ExternalMeta(total, auditLogId, recent, keyVersion).members;
    GetFirst(meta, 1, "returned_count");
    GetFirst(meta, 2, "truncated");
    GetFirst(meta, 6, "response_padded");
    forall i | 0 <= i < |picked| ensures results[i] != PaddingEntry() {
      PaddingIsRecognisable(docs[index[picked[i]].document]);
    }
    if total < MAX_EXTERNAL_RESULTS {
      assert results[|picked|] == PaddingEntry();
    } else {
      assert PaddingEntry() !in results;
    }
  }

  /** The audit row of an accepted search records the same counts and key version the meta block reports. */
  lemma AuditAgreesWithMeta(auditor: int, row: AuditorRow, keywordHash: Json, total: nat, now: int,
                            auditLogId: nat, recent: nat)
    ensures var a := AuditFor(auditor, row, keywordHash, total, true, now);
            var meta := ExternalMeta(total, auditLogId, recent, row.keyVersion).members;
            && a.success
            && Get(meta, "total_matches") == Some(JInt(a.totalMatches))
            && Get(meta, "returned_count") == Some(JInt(a.returnedCount))
            && Get(meta, "truncated") == Some(JBool(a.truncated))
            && Get(meta, "key_version_used") == Some(JInt(a.keyVersion))
  {
    var meta := ExternalMeta(total, auditLogId, recent, row.keyVersion).members;
    GetFirst(meta, 0, "total_matches");
    GetFirst(meta, 1, "returned_count");
    GetFirst(meta, 2, "truncated");
    GetFirst(meta, 5, "key_version_used");
  }

  /** The `results` list of an accepted search: the entries of the picked rows, then padding up to 50. */
  predicate PaddedResults(results: seq<Json>, docs: seq<Blob>, index: seq<IndexRow>, picked: seq<nat>)
  {
    && |picked| <= MAX_EXTERNAL_RESULTS
    && |results| == MAX_EXTERNAL_RESULTS
    && (forall i :: 0 <= i < |picked| ==>
          picked[i] < |index| && index[picked[i]].document < |docs| &&
          results[i] == RealEntry(docs[index[picked[i]].document]))
    && (forall i :: |picked| <= i < |results| ==> results[i] == PaddingEntry())
  }

  /**
   * `ExternalSearchView.post`. The verdict of `Validate` decides the answer;
   * no path before an accepted signature reads the index. A refused signature
   * writes a failed audit row with zero counts. An accepted search reports the
   * number of matching index rows, returns exactly 50 entries whose first
   * min(total, 50) come from distinct matching rows (`picked`), counts the
   * auditor's searches in the last hour BEFORE writing its own audit row, and
   * records the same counts in that row.
   */
  method Post(db: Database, eng: Engine, body: Json, now: int) returns (resp: Response, ghost picked: seq<nat>)
    requires db.Valid()
    modifies db
    ensures db.Valid()
    ensures db.documents == old(db.documents) && db.index == old(db.index) && db.auditors == old(db.auditors)
    ensures match Validate(db.auditors, eng, body)
      case NotAnObject => resp == Uncaught && db.audits == old(db.audits)
      case MissingFields =>
        resp == Reply(ErrorBody("MISSING_FIELDS", "Required fields missing", JNull), HTTP_400_BAD_REQUEST) &&
        db.audits == old(db.audits)
      case UnusableAuditorId => resp == Uncaught && db.audits == old(db.audits)
      case AuditorNotFound =>
        resp == Reply(ErrorBody("AUDITOR_NOT_FOUND", "Auditor not found", JNull), HTTP_404_NOT_FOUND) &&
        db.audits == old(db.audits)
      case InvalidSignature(key) =>
        resp == Reply(ErrorBody("INVALID_SIGNATURE", "Signature verification failed", JNull), HTTP_403_FORBIDDEN) &&
        db.audits == old(db.audits) + [AuditFor(key, db.auditors[key], Field(body, "keyword_hash").value, 0, false, now)]
      case Accepted(key) =>
        var hash := Field(body, "keyword_hash").value;
        var total := CountMatches(db.index, PyStr(hash));
        var recent := RecentSearches(old(db.audits), key, now);
        && |picked| == Min(total, MAX_EXTERNAL_RESULTS)
        && (forall i :: 0 <= i < |picked| ==> picked[i] < |db.index| && db.index[picked[i]].externalToken == PyStr(hash))
        && (forall i, j :: 0 <= i < j < |picked| ==> picked[i] != picked[j])
        && db.audits == old(db.audits) + [AuditFor(key, db.auditors[key], hash, total, true, now)]
        && RecentSearches(db.audits, key, now) == recent + 1
        && resp.Reply? && resp.status == HTTP_200_OK
        && exists results ::
             && PaddedResults(results, db.documents, db.index, picked)
             && resp.body == SuccessResponse(JObj([("results", JArray(results))]),
                                             ExternalMeta(total, |old(db.audits)|, recent, db.auditors[key].keyVersion))
  {
    picked := [];
    var verdict := CheckRequest(db, eng, body);
    match verdict
    case NotAnObject =>
      return Uncaught, picked;
    case MissingFields =>
      var err := ErrorResponse("MISSING_FIELDS", "Required fields missing", JNull);
      return Reply(err, HTTP_400_BAD_REQUEST), picked;
    case UnusableAuditorId =>
      return Uncaught, picked;
    case AuditorNotFound =>
      var err := ErrorResponse("AUDITOR_NOT_FOUND", "Auditor not found", JNull);
      return Reply(err, HTTP_404_NOT_FOUND), picked;
    case InvalidSignature(key) =>
      var keywordHash := Get(body.members, "keyword_hash").value;
      db.audits := db.audits + [AuditFor(key, db.auditors[key], keywordHash, 0, false, now)];
      var err := ErrorResponse("INVALID_SIGNATURE", "Signature verification failed", JNull);
      return Reply(err, HTTP_403_FORBIDDEN), picked;
    case Accepted(key) =>
      resp, picked := Accept(db, key, Get(body.members, "keyword_hash").value, now);
  }

  /**
   * The checks before the search, in the order the view makes them: read the
   * three fields, refuse a falsy one, convert and look up the auditor id, then
   * verify the signature with the auditor's public key.
   */
  method CheckRequest(db: Database, eng: Engine, body: Json) returns (verdict: Verdict)
    ensures verdict == Validate(db.auditors, eng, body)
    ensures (verdict.InvalidSignature? || verdict.Accepted?) ==>
              body.JObj? && verdict.auditor in db.auditors && Present(body, "keyword_hash")
  {
    if !body.JObj? {
      return NotAnObject;
    }
    var auditorId := Get(body.members, "auditor_id");
    var keywordHash := Get(body.members, "keyword_hash");
    var signature := Get(body.members, "signature");

    if auditorId.None? || !Truthy(auditorId.value) || keywordHash.None? || !Truthy(keywordHash.value) ||
       signature.None? || !Truthy(signature.value) {
      return MissingFields;
    }

    var key := AuditorKey(auditorId.value);
    if key.None? {
      return UnusableAuditorId;
    }
    if key.value !in db.auditors {
      return AuditorNotFound;
    }
    var auditor := db.auditors[key.value];

    var isValid := eng.verifySignature(keywordHash.value, signature.value, auditor.publicKey);
    if !isValid {
      return InvalidSignature(key.value);
    }
    return Accepted(key.value);
  }

  /** The search once the request passed validation: count, pick, pad, audit, answer. */
  method Accept(db: Database, key: int, keywordHash: Json, now: int) returns (resp: Response, ghost picked: seq<nat>)
    requires db.Valid() && key in db.auditors
    modifies db
    ensures db.Valid()
    ensures db.documents == old(db.documents) && db.index == old(db.index) && db.auditors == old(db.auditors)
    ensures var total := CountMatches(db.index, PyStr(keywordHash));
            var recent := RecentSearches(old(db.audits), key, now);
            && |picked| == Min(total, MAX_EXTERNAL_RESULTS)
            && (forall i :: 0 <= i < |picked| ==> picked[i] < |db.index| && db.index[picked[i]].externalToken == PyStr(keywordHash))
            && (forall i, j :: 0 <= i < j < |picked| ==> picked[i] != picked[j])
            && db.audits == old(db.audits) + [AuditFor(key, db.auditors[key], keywordHash, total, true, now)]
            && RecentSearches(db.audits, key, now) == recent + 1
            && resp.Reply? && resp.status == HTTP_200_OK
            && exists results ::
                 && PaddedResults(results, db.documents, db.index, picked)
                 && resp.body == SuccessResponse(JObj([("results", JArray(results))]),
                                                 ExternalMeta(total, |old(db.audits)|, recent, db.auditors[key].keyVersion))
  {
    var auditor := db.auditors[key];
    var hash := PyStr(keywordHash);
    var totalMatches := CountMatches(db.index, hash);
    var limitedMatches := LimitedMatches(db, hash);
    picked := limitedMatches;
    var encryptedResults := EntriesFor(db, limitedMatches);
    ghost var entries := encryptedResults;
    encryptedResults := Pad(encryptedResults);
    assert forall i :: 0 <= i < |entries| ==> encryptedResults[i] == encryptedResults[..|entries|][i];
    assert PaddedResults(encryptedResults, db.documents, db.index, picked);

    var recentSearchCount := RecentSearches(db.audits, key, now);
    var auditLogId := |db.audits|;
    db.audits := db.audits + [AuditFor(key, auditor, keywordHash, totalMatches, true, now)];
    assert db.audits[..|db.audits| - 1] == old(db.audits);

    var meta := ExternalMeta(totalMatches, auditLogId, recentSearchCount, auditor.keyVersion);
    var ok := SuccessResponse(JObj([("results", JArray(encryptedResults))]), meta);
    resp := Reply(ok, HTTP_200_OK);
  }

  /** `matches[:50]`: the positions of up to 50 distinct matching rows (the model takes them in table order). */
  method LimitedMatches(db: Database, hash: string) returns (picked: seq<nat>)
    ensures |picked| == Min(CountMatches(db.index, hash), MAX_EXTERNAL_RESULTS)
    ensures forall i :: 0 <= i < |picked| ==> picked[i] < |db.index| && db.index[picked[i]].externalToken == hash
    ensures forall i, j :: 0 <= i < j < |picked| ==> picked[i] < picked[j]
  {
    picked := [];
    var i := 0;
    while i < |db.index| && |picked| < MAX_EXTERNAL_RESULTS
      invariant 0 <= i <= |db.index|
      invariant |picked| == CountMatches(db.index[..i], hash)
      invariant |picked| <= MAX_EXTERNAL_RESULTS
      invariant forall k :: 0 <= k < |picked| ==> picked[k] < i && db.index[picked[k]].externalToken == hash
      invariant forall k, l :: 0 <= k < l < |picked| ==> picked[k] < picked[l]
    {
      assert db.index[..i + 1][..i] == db.index[..i];
      if db.index[i].externalToken == hash {
        picked := picked + [i];
      }
      i := i + 1;
    }
    CountMatchesPrefix(db.index, hash, i);
    if i == |db.index| {
      assert db.index[..i] == db.index;
    }
  }

  /** `[{"nonce": ..., "ciphertext": ...} for m in limited_matches]`. */
  method EntriesFor(db: Database, picked: seq<nat>) returns (entries: seq<Json>)
    requires db.Valid()
    requires forall i :: 0 <= i < |picked| ==> picked[i] < |db.index|
    ensures |entries| == |picked|
    ensures forall i :: 0 <= i < |picked| ==>
              db.index[picked[i]].document < |db.documents| &&
              entries[i] == RealEntry(db.documents[db.index[picked[i]].document])
  {
    entries := [];
    for i := 0 to |picked|
      invariant |entries| == i
      invariant forall k :: 0 <= k < i ==>
                  db.index[picked[k]].document < |db.documents| &&
                  entries[k] == RealEntry(db.documents[db.index[picked[k]].document])
    {
      var row := db.index[picked[i]];
      assert row in db.index;
      entries := entries + [RealEntry(db.documents[row.document])];
    }
  }

  /** The padding loop: append filler entries until there are 50. */
  method Pad(entries: seq<Json>) returns (padded: seq<Json>)
    requires |entries| <= MAX_EXTERNAL_RESULTS
    ensures |padded| == MAX_EXTERNAL_RESULTS
    ensures padded[..|entries|] == entries
    ensures forall i :: |entries| <= i < MAX_EXTERNAL_RESULTS ==> padded[i] == PaddingEntry()
  {
    padded := entries;
    if |padded| < MAX_EXTERNAL_RESULTS {
      var paddingNeeded := MAX_EXTERNAL_RESULTS - |padded|;
      for n := 0 to paddingNeeded
        invariant |padded| == |entries| + n
        invariant padded[..|entries|] == entries
        invariant forall i :: |entries| <= i < |padded| ==> padded[i] == PaddingEntry()
      {
        padded := padded + [PaddingEntry()];
      }
    }
  }
}
