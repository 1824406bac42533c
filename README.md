# SecureMatch document views and role-based front end, in Dafny

SecureMatch stores encrypted records and answers two kinds of keyword search
over them:

- **Internal search (SSE).** An internal analyst sends field/value pairs. The server turns each pair into a trapdoor and intersects the documents each trapdoor hits in the token index. It then decrypts at most 50 of them.
- **External search (PEKS).** An external auditor sends only a keyword hash, their auditor id and a signature over the hash. After validation the server returns exactly 50 entries of ciphertext (real matches first, then filler). It writes an audit row for every request that names an existing auditor: a refused signature (success=false, zero counts) or an accepted search.

This project models the three Django views that do this work and the JSON
envelope they answer in. It also models the React shell that lets a visitor
pick a role and switch tabs. It proves what those pieces promise.

Module by module:

- `Json`, `PyText`: the request and response values (a Python dict is an ordered list of members), and Python's `str()`, `repr()` and `strip()` as the views apply them to request values.
- `Envelope`: `success_response` and `error_response`, together with a client-side `Decode` of the envelope. Both builders are proved to produce bodies that decode to what was put in.
- `Tables`: the database as a `Database` object whose tables are sequences. A row's primary key is its position in its table. The crypto engine is an `Engine` value whose entry points are opaque functions; an entry point that can raise inside a view's `try` returns `None` to mean "raised".
- `UploadDocumentView`, `InternalSearchView`, `ExternalSearchView`: the three `post` handlers, as methods on the `Database` with loops and invariants. They are proved against specification functions: `IndexRows`, `MatchAll`, `Validate`, `CountMatches`, `RecentSearches` and `ExternalMeta`.
- `Ui`, `Navbar`, `Dashboard`, `App`: the front end. `Navbar` is a pure render function. `Dashboard` and `App` are classes whose fields are the components' `useState` state. Their methods are the click handlers, and their `Valid()` invariants are the reachable states.

Some behaviour the model keeps as the code has it:

- Upload indexes `str(value).strip()`, but internal search computes the trapdoor from `str(value)` without stripping. A record is therefore found again when the query uses the indexed value (`InternalSearchView.UploadedRecordIsFound`).
- The external view counts matching index **rows**, not distinct documents, and takes `matches[:50]` from those rows.
- Upload is not atomic. When a crypto call raises halfway through indexing, the document and the rows already written stay in the database, and the reply is `UPLOAD_FAILED`.
- An external auditor lands on the Upload tab, which they may not see. Their first dashboard has a navigation bar and no page (`App.ExternalFirstView`).

## Model

| member | source | states |
|---|---|---|
| Envelope.SuccessResponse | backend/securematch/documents/utils.py:4-23 | body has exactly the keys status, data, meta; it decodes to a success envelope; a truthy data/meta is passed through unchanged, a falsy one (None, empty) becomes `{}` |
| Envelope.ErrorBody | backend/securematch/documents/utils.py:26-56 | the error body decodes to an error envelope carrying exactly the given code and message, with details present iff `details` is truthy |
| Envelope.ErrorBodyShape | backend/securematch/documents/utils.py:45-56 | the error body has only the keys status and error (no data, no meta); the error object has code, message and then details iff details is truthy |
| Envelope.ErrorResponse | backend/securematch/documents/utils.py:45-56 | building the payload and then assigning `details` in place yields exactly `ErrorBody` |
| Envelope.SuccessIsNeverError | backend/securematch/documents/utils.py:19-56 | a success body and an error body are never equal, and each decodes to its own kind |
| Json.PutSpec | backend/securematch/documents/utils.py:50-51 | `d[key] = value` makes key read value, leaves every other key unchanged, and keeps the key order (appending a new key) |
| Json.PutNewKeyAppends | backend/securematch/documents/utils.py:50-51 | assigning a key the dict lacks appends it at the end |
| PyText.StripShape | backend/securematch/documents/views.py:60 | `strip()` returns the slice of the string between its leading and trailing whitespace, and the result neither starts nor ends with whitespace |
| PyText.StripEmptyIffAllSpace | backend/securematch/documents/views.py:60-62 | the stripped value is empty iff the string is all whitespace |
| PyText.StripIdempotent | backend/securematch/documents/views.py:60 | stripping twice is stripping once |
| PyText.StripKeepsTrimmed | backend/securematch/documents/views.py:60 | a string that neither starts nor ends with whitespace is unchanged by `strip()` |
| PyText.BlankOnlyForBlankStrings | backend/securematch/documents/views.py:58-62 | for a non-null value, `str(v).strip()` is empty iff v is a string made only of whitespace |
| UploadDocumentView.IndexableIff | backend/securematch/documents/views.py:57-62 | a searchable field is indexed iff it is present, not None and not a blank string |
| UploadDocumentView.KeptFieldsCount | backend/securematch/documents/views.py:57-62 | each occurrence of an indexable field is kept exactly once; a non-indexable field never is |
| UploadDocumentView.IndexRowsComplete | backend/securematch/documents/views.py:57-71 | the indexing loop finishes iff every kept field's tokens are computed, and then writes one row per kept field, in order, holding its token and external token |
| UploadDocumentView.IndexRowsPointAt | backend/securematch/documents/views.py:67-71 | every row written points at the new document; no more rows than kept fields |
| UploadDocumentView.Post | backend/securematch/documents/views.py:41-84 | non-object body: INVALID_JSON/400, nothing stored; encryption raising: UPLOAD_FAILED/400, nothing stored; otherwise exactly one new document and the loop's rows are appended, reply 201 with the success message if the loop completed, else UPLOAD_FAILED/400; auditors and audits untouched; the index keeps pointing at stored documents |
| UploadDocumentView.Unfinished | backend/securematch/documents/views.py:64-84 | when a field's token computation raises, the rows already written are the final rows and the loop has failed |
| UploadDocumentView.StaysFailed | backend/securematch/documents/views.py:57-84 | after a failure no further rows are written |
| InternalSearchView.NarrowIsMatchAll | backend/securematch/documents/views.py:106-120 | the `matching_doc_ids` loop yields exactly the documents hit by every trapdoor of the query |
| InternalSearchView.FieldOrderIrrelevant | backend/securematch/documents/views.py:108-120 | queries with the same set of trapdoors, in any order or with repeats, match the same documents |
| InternalSearchView.ExtraFieldNarrows | backend/securematch/documents/views.py:117-120 | adding a field to a query never enlarges the match set |
| InternalSearchView.MatchAllMeaning | backend/securematch/documents/views.py:108-120 | a document matches iff, for each trapdoor, some index row links it to that trapdoor |
| InternalSearchView.Post | backend/securematch/documents/views.py:95-171 | empty or non-object query: INVALID_QUERY/400; a trapdoor raising: INTERNAL_SEARCH_FAILED/400; otherwise min(total, 50) distinct matching documents are fetched newest first and returned decrypted, with meta total_matches = total, returned_count = number fetched, truncated iff total > 50; a decryption raising gives INTERNAL_SEARCH_FAILED/400 |
| InternalSearchView.MatchingDocIds | backend/securematch/documents/views.py:106-120 | the loop returns the intersection of the per-field match sets, or fails when a trapdoor raises |
| InternalSearchView.LimitIds | backend/securematch/documents/views.py:141 | `list(ids)[:50]` picks min(total, 50) of the matches |
| InternalSearchView.NewestFirst | backend/securematch/documents/views.py:143-145 | the fetched documents are exactly the picked ids, in strictly decreasing id order (newest first) |
| InternalSearchView.DecryptAll | backend/securematch/documents/views.py:147-150 | results are the decryptions of the fetched documents, in order, or none if one decryption raises |
| InternalSearchView.NoTrapdoors | backend/securematch/documents/views.py:108-109 | one raising trapdoor makes the whole query fail |
| InternalSearchView.NoTrapdoorsPrefix | backend/securematch/documents/views.py:108-109 | a raising trapdoor fails every longer prefix of the query |
| InternalSearchView.UploadedRecordIsFound | backend/securematch/documents/views.py:57-120 | after a completed upload, a one-field query with an indexed field's value finds the document, given trapdoors equal tokens |
| ExternalSearchView.PaddingIsRecognisable | backend/securematch/documents/views.py:237-254 | a real result entry is never equal to a padding entry |
| ExternalSearchView.ParseDigits | backend/securematch/documents/views.py:194 | the decimal text of a natural number parses back to it |
| ExternalSearchView.ParseIntStr | backend/securematch/documents/views.py:194 | `int(str(n)) == n` for every integer n |
| ExternalSearchView.AuditorKeyOfText | backend/securematch/documents/views.py:194 | an auditor id sent as an integer's decimal text looks up the same auditor as the integer |
| ExternalSearchView.MissingFieldsComeFirst | backend/securematch/documents/views.py:183-191 | a missing or falsy auditor_id, keyword_hash or signature is refused as MISSING_FIELDS whatever else holds |
| ExternalSearchView.SignatureOnlyForKnownAuditors | backend/securematch/documents/views.py:193-227 | a signature is checked only for an existing auditor, and a search runs only when that auditor's key verifies it |
| ExternalSearchView.CountMatchesPrefix | backend/securematch/documents/views.py:234 | the matches in a prefix of the index are at most those in the whole index |
| ExternalSearchView.MetaDescribesResults | backend/securematch/documents/views.py:245-293 | returned_count is the number of real entries; an entry is filler iff it comes after them; response_padded iff some entry is filler; truncated iff matches were left out |
| ExternalSearchView.AuditAgreesWithMeta | backend/securematch/documents/views.py:267-293 | the success audit row has success=true and the same total, returned count, truncated flag and key version as the meta |
| ExternalSearchView.Post | backend/securematch/documents/views.py:180-296 | checks run in order: non-object body or a non-integer id escapes the view; MISSING_FIELDS/400; AUDITOR_NOT_FOUND/404; INVALID_SIGNATURE/403 plus a failed audit row with zero counts; otherwise min(total, 50) distinct matching rows, 50 entries with padding, searches_last_hour counted before the new success audit row, meta as `ExternalMeta`; documents, index and auditors unchanged |
| ExternalSearchView.CheckRequest | backend/securematch/documents/views.py:183-210 | the checks made in the view's order (fields, id conversion and lookup, signature) reach exactly the verdict of `Validate`; a signature verdict always names an existing auditor |
| ExternalSearchView.Accept | backend/securematch/documents/views.py:229-296 | the accepted path: counts matching rows, picks min(total, 50) distinct ones, pads to 50, counts recent searches, then appends one audit row with the same counts; the auditor's count for the hour rises by one |
| ExternalSearchView.LimitedMatches | backend/securematch/documents/views.py:230-235 | `matches[:50]`: min(total, 50) distinct matching rows |
| ExternalSearchView.EntriesFor | backend/securematch/documents/views.py:237-243 | one nonce/ciphertext entry per picked row, from that row's document |
| ExternalSearchView.Pad | backend/securematch/documents/views.py:245-254 | the list grows to exactly 50; the existing entries are kept and every added entry is the zero-filled `padded` entry |
| Navbar.TabButton | frontend/src/components/Navbar.jsx:21-65 | a tab button selects its own tab and is highlighted iff its tab is the active one |
| Navbar.Render | frontend/src/components/Navbar.jsx:3-84 | the buttons are the role's offered tabs, in order; a tab can be selected iff it is offered; the label is "Internal Analyst" for internal, otherwise "External Auditor"; the Logout button calls logout |
| Navbar.OfferedTabsByRole | frontend/src/components/Navbar.jsx:19-65 | Upload and Storage are offered only to internal; Search and Metrics always |
| Navbar.OfferedTabsDistinct | frontend/src/components/Navbar.jsx:18-66 | no tab button appears twice |
| Navbar.OneHighlight | frontend/src/components/Navbar.jsx:21-65 | at most one button is highlighted, and one is iff the active tab is offered |
| Dashboard.Content | frontend/src/pages/Dashboard.jsx:23-26 | at most one page; Upload and Storage pages iff internal and on their tab; Search iff on search, and it gets the role; Metrics iff on metrics |
| Dashboard.OfferedTabHasPage | frontend/src/pages/Dashboard.jsx:22-26 | every tab the navigation bar offers shows exactly one page |
| Dashboard.ExternalStartsBlank | frontend/src/pages/Dashboard.jsx:11-26 | external on the initial Upload tab sees no page, and no Upload button |
| Dashboard.BlankOnlyOnExternalUpload | frontend/src/pages/Dashboard.jsx:22-26 | when external is not on Storage (every reachable state), no page renders iff the role is external and the tab is upload |
| Dashboard.Dashboard.Blank | frontend/src/pages/Dashboard.jsx:22-26 | a mounted dashboard shows an empty content area iff it is external on the upload tab |
| Dashboard.Dashboard.constructor | frontend/src/pages/Dashboard.jsx:10-11 | a mounted dashboard starts on "upload" with the role it was given |
| Dashboard.Dashboard.SetActiveTab | frontend/src/pages/Dashboard.jsx:11-20 | selecting an offered tab makes it active, keeps the reachable-state invariant and shows one page |
| App.SelectionOffersBothRoles | frontend/src/App.jsx:24-36 | the selection screen's buttons set the role to internal or external, and do nothing else |
| App.DashboardOffersNoRoleChange | frontend/src/App.jsx:43 | on the dashboard the only actions are offered tab selections and logout |
| App.App.constructor | frontend/src/App.jsx:6 | role starts null |
| App.App.View | frontend/src/App.jsx:13-43 | the selection screen iff role is null; otherwise the dashboard for that role, whose Logout button calls logout |
| App.App.Click | frontend/src/App.jsx:6-43 | a role button sets the role and mounts a fresh dashboard on "upload"; a tab button changes only the tab; logout sets the role to null and unmounts the dashboard; role stays null/internal/external and the invariant holds |
| App.App.SetRole | frontend/src/App.jsx:24-36 | from the selection screen, the role becomes the chosen one and a fresh dashboard on "upload" is mounted |
| App.App.SwitchTab | frontend/src/pages/Dashboard.jsx:11-20 | an offered tab becomes active and exactly one page shows; the role is unchanged |
| App.ExternalFirstView | frontend/src/App.jsx:31-43 | choosing External first shows a dashboard with no page |

## Left out

- Timing: `execution_time_ms` and `signature_verification_ms`, and their float rounding, are not modelled. The meta blocks and audit rows hold everything else.
- Throttling (`ScopedRateThrottle`, the upload and search rates) and the rest of the settings file are not modelled.
- The SSE and PEKS engines are opaque functions of the `Engine` value. `verify_signature` always returns a boolean here; an exception from it, outside the `try`, is not modelled.
- `documents/constants.py` is not part of this model. `SEARCHABLE_FIELDS` is the `searchable` parameter of `UploadDocumentView.Post`.
- The ORM:
  - A row id is the row's position.
  - "Newest first" is decreasing id; ties in `created_at` are not modelled.
  - `audit_log_id` is the new audit row's position.
  - The clock is the `now` parameter, in microseconds.
  - Database errors and the 64-character column limits are not modelled.
  - A stored blob always has both `nonce` and `ciphertext`, so the missing-key error is not modelled.
- ExternalSearchView.LimitedMatches: the index has no declared ordering, so `matches[:50]` is modelled as the first 50 matching rows in table order.
- ExternalSearchView.AuditorKey: Python `int()` on a string is modelled for optionally signed ASCII digits around whitespace. Underscores, non-ASCII digits and float-valued ids are not modelled.
- PyText.PyStr: the `repr()` inside nested lists and dicts escapes only backslash, the quote, newline, carriage return and tab. Other non-printable characters are not modelled.
- Json.Members: a JSON object is assumed to have unique keys. The model reads the first of duplicate keys, and the internal search iterates every member; Python's JSON parser keeps the last duplicate, and `items()` sees each key once.
- Form-encoded and multipart request bodies, which the default DRF parsers also accept as multi-valued `QueryDict`s, are not modelled; request bodies are JSON values.
- JSON numbers that are not integers are not modelled, and neither are request bodies that fail to parse.
- The model-level `__str__` methods are not modelled.
- The upload, search, storage and metrics page components, the auditor creation card and the API client are not part of this model. Client-side normalising, hashing and signing is not part of this model either.
- Markup and styling other than the button texts, the tab buttons' highlight class and the role label are not modelled.
