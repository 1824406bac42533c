/**
 * The database tables the document views read and write, the crypto engine
 * they call, and the HTTP reply they return.
 *
 * A row's primary key is modelled as its position in its table. The crypto
 * engine is opaque: each entry point is a parameter, and the ones a view calls
 * inside its `try` block return None where they raise.
 */
module Tables {
  import opened Wrappers
  import opened Json

  /** `encrypted_blob` of an EncryptedDocument row. */
  datatype Blob = Blob(nonce: string, ciphertext: string)

  /** The entry points of the SSE and PEKS engines that the views call. */
  datatype Engine = Engine(
    encryptDocument: Json -> Option<Blob>,
    decryptDocument: Blob -> Option<Json>,
    generateToken: (string, string) -> Option<string>,
    generateTrapdoor: (string, string) -> Option<string>,
    hashKeyword: string -> Option<string>,
    verifySignature: (Json, Json, string) -> bool)

  /** A SearchTokenIndex row: the SSE token, the external (PEKS) token and the document it points to. */
  datatype IndexRow = IndexRow(token: string, externalToken: string, document: nat)

  /** An Auditor row. */
  datatype AuditorRow = AuditorRow(name: string, publicKey: string, keyVersion: int)

  /** An ExternalSearchAudit row; `createdAt` is the clock reading when it was written. */
  datatype AuditRow = AuditRow(
    auditor: int,
    keywordHash: string,
    totalMatches: nat,
    returnedCount: nat,
    truncated: bool,
    success: bool,
    keyVersion: int,
    createdAt: int)

  /** What a view hands back: a rendered body with an HTTP status, or an exception that escapes the view. */
  datatype Response = Reply(body: Json, status: int) | Uncaught

  function Min(a: int, b: int): int
  {
    if a <= b then a else b
  }

  const HTTP_200_OK := 200
  const HTTP_201_CREATED := 201
  const HTTP_400_BAD_REQUEST := 400
  const HTTP_403_FORBIDDEN := 403
  const HTTP_404_NOT_FOUND := 404

  class Database {
    var documents: seq<Blob>
    var index: seq<IndexRow>
    var auditors: map<int, AuditorRow>
    var audits: seq<AuditRow>

    /** The foreign key from the index to the documents table holds. */
    ghost predicate Valid()
      reads this
    {
      forall r :: r in index ==> r.document < |documents|
    }

    constructor ()
      ensures Valid()
      ensures documents == [] && index == [] && auditors == map[] && audits == []
    {
      documents, index, auditors, audits := [], [], map[], [];
    }
  }
}
