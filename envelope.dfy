/**
 * The two response envelopes every view wraps its answer in:
 *   success: {"status": "success", "data": {...}, "meta": {...}}
 *   error:   {"status": "error", "error": {"code": ..., "message": ..., "details"?: ...}}
 * `Decode` is how a client reads an envelope back; the lemmas and contracts
 * below show that both builders produce bodies it reads as intended.
 */
module Envelope {
  import opened Wrappers
  import opened Json

  /** What a client recovers from a response body. */
  datatype Envelope =
    | SuccessEnvelope(data: Json, meta: Json)
    | ErrorEnvelope(code: string, message: string, details: Option<Json>)

  /** Reads a body in the documented envelope format; None for any other shape. */
  function Decode(body: Json): Option<Envelope>
  {
    if !body.JObj? then None
    else
      var ms := body.members;
      match Get(ms, "status")
      case Some(JStr(st)) =>
        if st == "success" then
          match (Get(ms, "data"), Get(ms, "meta"))
          case (Some(d), Some(m)) => Some(SuccessEnvelope(d, m))
          case _ => None
        else if st == "error" then
          match Get(ms, "error")
          case Some(JObj(e)) =>
            (match (Get(e, "code"), Get(e, "message"))
             case (Some(JStr(c)), Some(JStr(msg))) => Some(ErrorEnvelope(c, msg, Get(e, "details")))
             case _ => None)
          case _ => None
        else None
      case _ => None
  }

  /**
   * `success_response(data, meta)`: always the three keys status, data and meta,
   * with a missing (None) or empty `data`/`meta` replaced by `{}` and any other
   * value passed through unchanged.
   */
  function SuccessResponse(data: Json, meta: Json): (body: Json)
    ensures body.JObj? && Keys(body.members) == ["status", "data", "meta"]
    ensures Decode(body) == Some(SuccessEnvelope(OrEmptyObject(data), OrEmptyObject(meta)))
    ensures Truthy(data) ==> Decode(body).value.data == data
    ensures !Truthy(data) ==> Decode(body).value.data == JObj([])
    ensures Truthy(meta) ==> Decode(body).value.meta == meta
    ensures !Truthy(meta) ==> Decode(body).value.meta == JObj([])
  {
    var d, m := OrEmptyObject(data), OrEmptyObject(meta);
    GetOfThree("status", JStr("success"), "data", d, "meta", m, "status");
    GetOfThree("status", JStr("success"), "data", d, "meta", m, "data");
    GetOfThree("status", JStr("success"), "data", d, "meta", m, "meta");
    JObj([("status", JStr("success")), ("data", d), ("meta", m)])
  }

  /** The details a client reads back from an error envelope built with `details`. */
  function DetailsSeen(details: Json): Option<Json>
  {
    if Truthy(details) then Some(details) else None
  }

  /**
   * The body `error_response(code, message, details)` returns; a client reads
   * back exactly the given code and message, and the details only when they are
   * truthy.
   */
  function ErrorBody(code: string, message: string, details: Json): (body: Json)
    ensures Decode(body) == Some(ErrorEnvelope(code, message, DetailsSeen(details)))
  {
    var base := [("code", JStr(code)), ("message", JStr(message))];
    var e := if Truthy(details) then base + [("details", details)] else base;
    var ms := [("status", JStr("error")), ("error", JObj(e))];
    ErrorBodyLookups(code, message, details);
    JObj(ms)
  }

  lemma ErrorBodyLookups(code: string, message: string, details: Json)
    ensures var base := [("code", JStr(code)), ("message", JStr(message))];
            var e := if Truthy(details) then base + [("details", details)] else base;
            var ms := [("status", JStr("error")), ("error", JObj(e))];
            && Get(ms, "status") == Some(JStr("error"))
            && Get(ms, "error") == Some(JObj(e))
            && Get(ms, "data").None? && Get(ms, "meta").None?
            && Get(e, "code") == Some(JStr(code))
            && Get(e, "message") == Some(JStr(message))
            && Get(e, "details") == DetailsSeen(details)
  {
    var base := [("code", JStr(code)), ("message", JStr(message))];
    var ms0 := [("status", JStr("error")), ("error", JObj(base + [("details", details)]))];
    var ms1 := [("status", JStr("error")), ("error", JObj(base))];
    GetOfTwo("status", JStr("error"), "error", JObj(base + [("details", details)]), "status");
    GetOfTwo("status", JStr("error"), "error", JObj(base + [("details", details)]), "error");
    GetOfTwo("status", JStr("error"), "error", JObj(base + [("details", details)]), "data");
    GetOfTwo("status", JStr("error"), "error", JObj(base + [("details", details)]), "meta");
    GetOfTwo("status", JStr("error"), "error", JObj(base), "status");
    GetOfTwo("status", JStr("error"), "error", JObj(base), "error");
    GetOfTwo("status", JStr("error"), "error", JObj(base), "data");
    GetOfTwo("status", JStr("error"), "error", JObj(base), "meta");
    assert base + [("details", details)] == [("code", JStr(code)), ("message", JStr(message)), ("details", details)];
    GetOfThree("code", JStr(code), "message", JStr(message), "details", details, "code");
    GetOfThree("code", JStr(code), "message", JStr(message), "details", details, "message");
    GetOfThree("code", JStr(code), "message", JStr(message), "details", details, "details");
    GetOfTwo("code", JStr(code), "message", JStr(message), "code");
    GetOfTwo("code", JStr(code), "message", JStr(message), "message");
    GetOfTwo("code", JStr(code), "message", JStr(message), "details");
  }

  /**
   * The error envelope has only the keys status and error (no data, no meta),
   * and its error object the keys code and message, followed by details
   * exactly when `details` is truthy.
   */
  lemma ErrorBodyShape(code: string, message: string, details: Json)
    ensures var body := ErrorBody(code, message, details);
            && body.JObj? && Keys(body.members) == ["status", "error"]
            && Get(body.members, "data").None? && Get(body.members, "meta").None?
            && Get(body.members, "error").Some? && Get(body.members, "error").value.JObj?
            && Keys(Get(body.members, "error").value.members) ==
               ["code", "message"] + (if Truthy(details) then ["details"] else [])
  {
    ErrorBodyLookups(code, message, details);
    var base := [("code", JStr(code)), ("message", JStr(message))];
    if Truthy(details) {
      assert base + [("details", details)] == [("code", JStr(code)), ("message", JStr(message)), ("details", details)];
      GetOfThree("code", JStr(code), "message", JStr(message), "details", details, "code");
      GetOfTwo("status", JStr("error"), "error", JObj(base + [("details", details)]), "status");
    } else {
      GetOfTwo("code", JStr(code), "message", JStr(message), "code");
      GetOfTwo("status", JStr("error"), "error", JObj(base), "status");
    }
  }

  /** `error_response`: builds the error payload, then adds `details` to it in place. */
  method ErrorResponse(code: string, message: string, details: Json) returns (body: Json)
    ensures body == ErrorBody(code, message, details)
  {
    var payload := [("code", JStr(code)), ("message", JStr(message))];
    GetOfTwo("code", JStr(code), "message", JStr(message), "details");
    if Truthy(details) {
      PutNewKeyAppends(payload, "details", details);
      payload := Put(payload, "details", details);
    }
    body := JObj([("status", JStr("error")), ("error", JObj(payload))]);
  }

  /** A success envelope and an error envelope are never the same body. */
  lemma SuccessIsNeverError(data: Json, meta: Json, code: string, message: string, details: Json)
    ensures SuccessResponse(data, meta) != ErrorBody(code, message, details)
    ensures Decode(SuccessResponse(data, meta)).value.SuccessEnvelope?
    ensures Decode(ErrorBody(code, message, details)).value.ErrorEnvelope?
  {
  }
}
