/** The server side of the AcroForm editor (src/Controller/AcroFormOverridesController.php):
    document-key validation, the load, save and apply endpoints. HTTP plumbing, the Python
    extractor run and the PDF download are outside the model; their results are parameters. */
module AcroFormOverridesController {
  import opened Wrappers
  import opened Text
  import opened Values
  import AcroFormFieldPatch
  import opened AcroFormOverrides
  import opened SessionOverridesStorage
  import opened AcroFormApplyEvent
  import ProxyUrlValidator
  import Pdf

  /** A response: JSON with a status, a plain body (a PDF when `pdf` is set), or an exception
      the controller does not catch. */
  datatype Response =
    | Json(status: int, body: Value)
    | Content(status: int, content: string, pdf: bool)
    | Uncaught(message: string)

  function JsonError(status: int, message: string): Response {
    Json(status, Dict(map["error" := Str(message)]))
  }

  // ---------------------------------------------------------------- document keys

  const DocumentKeyMaxLength := 256

  /** `preg_match('/^[a-zA-Z0-9_.\-]+$/', $k)`. Without the `D` modifier PCRE's `$` also matches
      just before a final newline. The pattern works on bytes, and no byte of a non-ASCII
      character is in the class. */
  predicate MatchesKeyPattern(k: string) {
    || (|k| > 0 && forall i :: 0 <= i < |k| ==> IsKeyChar(k[i]))
    || (|k| > 1 && k[|k| - 1] == '\n' && forall i :: 0 <= i < |k| - 1 ==> IsKeyChar(k[i]))
  }

  /** `isValidDocumentKey`: non-empty, at most 256 bytes, matching the pattern. */
  predicate IsValidDocumentKey(k: string) {
    !(k == "" || Utf8Length(k) > DocumentKeyMaxLength) && MatchesKeyPattern(k)
  }

  /** The characters and the length of a key that passes, as the endpoints see it. */
  predicate WellFormedKey(k: string) {
    0 < |k| <= DocumentKeyMaxLength && forall i :: 0 <= i < |k| ==> IsKeyChar(k[i])
  }

  /** Every caller trims the key first, and PHP's `trim` removes a trailing newline, so on the
      keys that reach the check it accepts exactly the well-formed ones. */
  lemma ValidTrimmedKey(raw: string)
    ensures IsValidDocumentKey(PhpTrim(raw)) <==> WellFormedKey(PhpTrim(raw))
  {
    var k := PhpTrim(raw);
    assert k == [] || !IsPhpTrimChar(k[|k| - 1]);
    if forall i :: 0 <= i < |k| ==> IsKeyChar(k[i]) {
      forall i | 0 <= i < |k|
        ensures IsAscii(k[i])
      {
      }
      Utf8LengthOfAscii(k);
    }
  }

  /** The newline quirk, visible only to an untrimmed key. */
  lemma KeyWithTrailingNewline()
    ensures IsValidDocumentKey("doc\n") && !WellFormedKey("doc\n")
  {
    assert Utf8Length("doc\n") == 4;
  }

  /** The key `resolveDocumentKey` starts from: the body's `document_key` when the body has that
      key (even with a null value), else the query string's, else the form field's. */
  function RawDocumentKey(body: Option<Object>, query: Option<string>, form: Option<string>): Value {
    if body.Some? && "document_key" in body.value then body.value["document_key"]
    else if query.Some? then Str(query.value)
    else if form.Some? then Str(form.value)
    else Null
  }

  /** `resolveDocumentKey`: the trimmed key when it is valid, null otherwise. */
  function ResolveDocumentKey(body: Option<Object>, query: Option<string>, form: Option<string>, php: PhpRuntime)
    : (r: Option<string>)
    ensures var raw := RawDocumentKey(body, query, form);
      r.Some? <==> raw != Null && IsValidDocumentKey(PhpTrim(PhpToString(raw, php)))
    ensures r.Some? ==> r.value == PhpTrim(PhpToString(RawDocumentKey(body, query, form), php))
    ensures r.Some? ==> WellFormedKey(r.value)
  {
    var key := RawDocumentKey(body, query, form);
    if key == Null || PhpTrim(PhpToString(key, php)) == "" then None
    else
      var k := PhpTrim(PhpToString(key, php));
      ValidTrimmedKey(PhpToString(key, php));
      if IsValidDocumentKey(k) then Some(k) else None
  }

  /** A body that has the key decides alone: a null there is no key, whatever the query says. */
  lemma BodyKeyWins(body: Object, query: string, php: PhpRuntime)
    requires "document_key" in body && body["document_key"] == Null
    ensures ResolveDocumentKey(Some(body), Some(query), None, php).None?
  {
  }

  /** The key `loadOverrides` and `saveOverrides` accept: a string, trimmed. Anything else
      counts as `''`. */
  function BodyKey(v: Value): string {
    if v.Str? then PhpTrim(v.s) else ""
  }

  // ---------------------------------------------------------------- saveOverrides

  /** The overrides `saveOverrides` stores for a valid key: non-array `overrides` become `[]`,
      non-array `fields` become null. */
  function SavedOverrides(data: Object, documentKey: string): (o: Overrides)
    ensures Valid(o) && o.documentKey == Some(documentKey)
  {
    var overrides := PhpCoalesce(data, "overrides", List([]));
    var fields := PhpCoalesce(data, "fields", Null);
    Overrides(if PhpIsArray(overrides) then overrides else List([]), Some(documentKey),
              if PhpIsArray(fields) then Some(fields) else None)
  }

  /** The save endpoint coerces `overrides` and `fields` exactly as the DTO's `fromArray` does. */
  lemma SavedLikeFromArray(data: Object, documentKey: string, php: PhpRuntime)
    ensures SavedOverrides(data, documentKey).overrides == FromArray(data, php).overrides
    ensures SavedOverrides(data, documentKey).fields == FromArray(data, php).fields
  {
  }

  /** The key `saveOverrides` reads: `$data['document_key'] ?? $query ?? ''`, then `BodyKey`. */
  function SaveKey(data: Object, query: Option<string>): string {
    BodyKey(if PhpIsset(data, "document_key") then data["document_key"]
            else if query.Some? then Str(query.value) else Str(""))
  }

  /** `saveOverrides`: a bad key is refused and nothing is stored; otherwise the coerced
      overrides replace the document's slot and are echoed back. */
  method SaveOverrides(enabled: bool, data: Object, query: Option<string>, storage: SessionStorage)
      returns (r: Response)
    modifies storage
    ensures !enabled ==> r == Content(404, "", false) && storage.session == old(storage.session)
    ensures enabled && !IsValidDocumentKey(SaveKey(data, query))
            ==> r == JsonError(400, "Invalid or missing document_key") && storage.session == old(storage.session)
    ensures enabled && IsValidDocumentKey(SaveKey(data, query))
            ==> var o := SavedOverrides(data, SaveKey(data, query));
                r == Json(200, Dict(Exported(o)))
                && storage.session == (if old(storage.session).None? then None
                                       else Some(old(storage.session).value[Slot(SaveKey(data, query)) := Dict(Exported(o))]))
  {
    if !enabled {
      return Content(404, "", false);
    }
    var raw := PhpCoalesce(data, "document_key", if query.Some? then Str(query.value) else Str(""));
    var documentKey := if raw.Str? then PhpTrim(raw.s) else "";
    assert documentKey == SaveKey(data, query);
    if documentKey == "" || !IsValidDocumentKey(documentKey) {
      return JsonError(400, "Invalid or missing document_key");
    }
    var overrides := CoerceSaved(data, documentKey);
    storage.Set(documentKey, overrides);
    var out := ToArray(overrides);
    r := Json(200, Dict(out));
  }

  /** The coercion block of `saveOverrides`. */
  method CoerceSaved(data: Object, documentKey: string) returns (overrides: Overrides)
    ensures overrides == SavedOverrides(data, documentKey)
  {
    var overridesData := PhpCoalesce(data, "overrides", List([]));
    if !PhpIsArray(overridesData) {
      overridesData := List([]);
    }
    var fields := PhpCoalesce(data, "fields", Null);
    if fields != Null && !PhpIsArray(fields) {
      fields := Null;
    }
    overrides := Overrides(overridesData, Some(documentKey), if fields == Null then None else Some(fields));
  }

  /** `getOverrides`: the key comes from the query or the form (no body); the stored overrides
      as `toArray` writes them, 404 when nothing is stored. */
  method GetOverrides(enabled: bool, query: Option<string>, form: Option<string>, storage: SessionStorage,
                      php: PhpRuntime) returns (r: Response)
    ensures !enabled ==> r == Content(404, "", false)
    ensures enabled && ResolveDocumentKey(None, query, form, php).None? ==> r == JsonError(400, "document_key required")
    ensures enabled && ResolveDocumentKey(None, query, form, php).Some? ==>
      var stored := Read(storage.session, ResolveDocumentKey(None, query, form, php).value, php);
      && (stored.None? ==> r == JsonError(404, "Not found"))
      && (stored.Some? ==> r == Json(200, Dict(Exported(stored.value))))
  {
    if !enabled {
      return Content(404, "", false);
    }
    var documentKey := ResolveDocumentKey(None, query, form, php);
    if documentKey.None? {
      return JsonError(400, "document_key required");
    }
    var overrides := storage.Get(documentKey.value, php);
    if overrides.None? {
      return JsonError(404, "Not found");
    }
    var out := ToArray(overrides.value);
    r := Json(200, Dict(out));
  }

  /** `removeOverrides`: 204 after clearing the key's slot, whether or not anything was stored. */
  method RemoveOverrides(enabled: bool, query: Option<string>, form: Option<string>, storage: SessionStorage,
                         php: PhpRuntime) returns (r: Response)
    modifies storage
    ensures !enabled || ResolveDocumentKey(None, query, form, php).None? ==> storage.session == old(storage.session)
    ensures !enabled ==> r == Content(404, "", false)
    ensures enabled && ResolveDocumentKey(None, query, form, php).None? ==> r == JsonError(400, "document_key required")
    ensures enabled && ResolveDocumentKey(None, query, form, php).Some? ==>
      var k := ResolveDocumentKey(None, query, form, php).value;
      && r == Content(204, "", false)
      && storage.session == (if old(storage.session).None? then None
                             else Some(old(storage.session).value - {Slot(k)}))
  {
    if !enabled {
      return Content(404, "", false);
    }
    var documentKey := ResolveDocumentKey(None, query, form, php);
    if documentKey.None? {
      return JsonError(400, "document_key required");
    }
    storage.Remove(documentKey.value);
    r := Content(204, "", false);
  }

  /** What is read back after a save is what was saved (as `toArray` keeps it). */
  lemma ReadAfterSave(s: map<string, Value>, data: Object, query: Option<string>, php: PhpRuntime)
    ensures var k := SaveKey(data, query); var o := SavedOverrides(data, k);
      Read(Some(s[Slot(k) := Dict(Exported(o))]), k, php) == Some(Stored(o))
  {
    var k := SaveKey(data, query);
    ReadAfterSet(s, k, SavedOverrides(data, k), php);
  }

  // ---------------------------------------------------------------- loadOverrides

  /** `isset($f['id']) ? (string) $f['id'] : ''` for one extracted field; only an array with a
      non-null `id` has one. */
  function FieldIdOf(f: Value, php: PhpRuntime): (id: string)
    ensures id != "" ==> f.Dict? && "id" in f.entries
  {
    if f.Dict? && PhpIsset(f.entries, "id") then PhpToString(f.entries["id"], php) else ""
  }

  /** `$byId` after the first loop: every field with a non-empty id under that id; a later
      field with the same id replaces an earlier one. */
  function ById(fields: seq<Value>, php: PhpRuntime): map<string, Object> {
    if fields == [] then map[]
    else
      var byId := ById(fields[..|fields| - 1], php);
      var f := fields[|fields| - 1];
      var id := FieldIdOf(f, php);
      if id != "" then byId[id := f.entries] else byId
  }

  /** The first loop of the merge. */
  method IndexById(fields: seq<Value>, php: PhpRuntime) returns (byId: map<string, Object>)
    ensures byId == ById(fields, php)
  {
    byId := map[];
    for i := 0 to |fields|
      invariant byId == ById(fields[..i], php)
    {
      var f := fields[i];
      var id := FieldIdOf(f, php);
      if id != "" {
        byId := byId[id := f.entries];
      }
      assert fields[..i + 1][..i] == fields[..i];
    }
    assert fields[..|fields|] == fields;
  }

  /** An id is indexed exactly when some field carries it. */
  lemma {:induction false} ByIdKeys(fields: seq<Value>, php: PhpRuntime, id: string)
    ensures id in ById(fields, php) <==> id != "" && exists i :: 0 <= i < |fields| && FieldIdOf(fields[i], php) == id
  {
    if fields != [] {
      var init := fields[..|fields| - 1];
      ByIdKeys(init, php, id);
      if exists i :: 0 <= i < |init| && FieldIdOf(init[i], php) == id {
        var i :| 0 <= i < |init| && FieldIdOf(init[i], php) == id;
        assert fields[i] == init[i];
      }
      if exists i :: 0 <= i < |fields| && FieldIdOf(fields[i], php) == id {
        var i :| 0 <= i < |fields| && FieldIdOf(fields[i], php) == id;
        if i < |init| {
          assert init[i] == fields[i];
        }
      }
    }
  }

  /** The indexed field is the last one with that id. */
  lemma {:induction false} ByIdLastWins(fields: seq<Value>, php: PhpRuntime, i: nat)
    requires i < |fields| && FieldIdOf(fields[i], php) != ""
    requires forall j :: i < j < |fields| ==> FieldIdOf(fields[j], php) != FieldIdOf(fields[i], php)
    ensures FieldIdOf(fields[i], php) in ById(fields, php)
    ensures ById(fields, php)[FieldIdOf(fields[i], php)] == fields[i].entries
  {
    if i < |fields| - 1 {
      var init := fields[..|fields| - 1];
      assert init[i] == fields[i];
      ByIdLastWins(init, php, i);
    }
  }

  /** `$base = $byId[$id] ?? []` merged with the stored override: `array_merge($base, $stored)`
      when the stored value is an array, so stored keys win, else the base alone. */
  function MergeEntry(byId: map<string, Object>, id: string, stored: Value): Value {
    var base := if id in byId then byId[id] else map[];
    if PhpIsArray(stored) then Dict(base + PhpEntries(stored)) else Dict(base)
  }

  /** `$fullOverrides` after the second loop: one merged entry per stored override. */
  function MergedStored(stored: map<string, Value>, byId: map<string, Object>): map<string, Value> {
    map id | id in stored :: MergeEntry(byId, id, stored[id])
  }

  /** `$fullOverrides` at the end: the merged stored overrides, then every extracted field that
      has no stored override yet. */
  function LoadMerge(stored: map<string, Value>, byId: map<string, Object>): map<string, Value> {
    map id | id in stored.Keys + byId.Keys :: if id in stored then MergeEntry(byId, id, stored[id]) else Dict(byId[id])
  }

  /** The second loop (`foreach ($overridesData as $id => $stored)`). Each stored id is visited
      once, so the order of the visits does not change the result. */
  method MergeStoredLoop(stored: map<string, Value>, byId: map<string, Object>) returns (full: map<string, Value>)
    ensures full == MergedStored(stored, byId)
  {
    full := map[];
    var todo := stored.Keys;
    while todo != {}
      invariant todo <= stored.Keys
      invariant full == map id | id in stored.Keys - todo :: MergeEntry(byId, id, stored[id])
      decreases todo
    {
      var id :| id in todo;
      full := full[id := MergeEntry(byId, id, stored[id])];
      todo := todo - {id};
    }
  }

  /** `$fullOverrides` once the third loop has visited the ids in `done`. */
  function WithExtracted(full0: map<string, Value>, byId: map<string, Object>, done: set<string>): map<string, Value>
    requires done <= byId.Keys
  {
    map id | id in full0.Keys + done :: if id in full0 then full0[id] else Dict(byId[id])
  }

  /** One visit of the third loop: an id already present is kept, another one is added. */
  lemma WithExtractedStep(full0: map<string, Value>, byId: map<string, Object>, done: set<string>, id: string)
    requires done <= byId.Keys && id in byId && id !in done
    ensures id in WithExtracted(full0, byId, done) <==> id in full0
    ensures WithExtracted(full0, byId, done + {id})
            == if id in full0 then WithExtracted(full0, byId, done)
               else WithExtracted(full0, byId, done)[id := Dict(byId[id])]
  {
  }

  /** The third loop: every indexed field that is not yet a key is added as it is. */
  method AddExtractedLoop(full0: map<string, Value>, byId: map<string, Object>) returns (full: map<string, Value>)
    ensures full == WithExtracted(full0, byId, byId.Keys)
  {
    full := full0;
    var todo := byId.Keys;
    ghost var done: set<string> := {};
    assert full0 == WithExtracted(full0, byId, {});
    while todo != {}
      invariant done !! todo && done + todo == byId.Keys
      invariant full == WithExtracted(full0, byId, done)
      decreases todo
    {
      var id :| id in todo;
      WithExtractedStep(full0, byId, done, id);
      if id !in full {
        full := full[id := Dict(byId[id])];
      }
      done := done + {id};
      todo := todo - {id};
    }
  }

  /** The merge block of `loadOverrides`. */
  method MergeOverrides(stored: map<string, Value>, fields: seq<Value>, php: PhpRuntime) returns (full: map<string, Value>)
    ensures full == LoadMerge(stored, ById(fields, php))
  {
    var byId := IndexById(fields, php);
    var merged := MergeStoredLoop(stored, byId);
    full := AddExtractedLoop(merged, byId);
  }

  /** The merged map has a key for every stored override and every extracted field with an id,
      and no other. */
  lemma LoadMergeKeys(stored: map<string, Value>, fields: seq<Value>, php: PhpRuntime, id: string)
    ensures id in LoadMerge(stored, ById(fields, php))
            <==> id in stored || (id != "" && exists i :: 0 <= i < |fields| && FieldIdOf(fields[i], php) == id)
  {
    ByIdKeys(fields, php, id);
  }

  /** A key of a stored array override wins over the extracted field's value; the extracted
      field supplies the keys the override lacks. */
  lemma StoredKeysWin(stored: map<string, Value>, byId: map<string, Object>, id: string, key: string)
    requires id in stored && PhpIsArray(stored[id])
    ensures LoadMerge(stored, byId)[id].Dict?
    ensures key in PhpEntries(stored[id]) ==> LoadMerge(stored, byId)[id].entries[key] == PhpEntries(stored[id])[key]
    ensures key !in PhpEntries(stored[id]) && id in byId && key in byId[id]
            ==> LoadMerge(stored, byId)[id].entries[key] == byId[id][key]
  {
  }

  /** A stored override that is not an array is replaced by the extracted field (or `[]`). */
  lemma NonArrayStoredIsBase(stored: map<string, Value>, byId: map<string, Object>, id: string)
    requires id in stored && !PhpIsArray(stored[id])
    ensures LoadMerge(stored, byId)[id] == Dict(if id in byId then byId[id] else map[])
  {
  }

  /** An extracted field without a stored override appears as the last field with its id. */
  lemma UnstoredFieldIsLastExtracted(stored: map<string, Value>, fields: seq<Value>, php: PhpRuntime, i: nat)
    requires i < |fields| && FieldIdOf(fields[i], php) != "" && FieldIdOf(fields[i], php) !in stored
    requires forall j :: i < j < |fields| ==> FieldIdOf(fields[j], php) != FieldIdOf(fields[i], php)
    ensures FieldIdOf(fields[i], php) in LoadMerge(stored, ById(fields, php))
    ensures LoadMerge(stored, ById(fields, php))[FieldIdOf(fields[i], php)] == fields[i]
  {
    ByIdLastWins(fields, php, i);
  }

  /** The body `loadOverrides` answers with for a valid key: the stored overrides and the key;
      with a non-empty extracted list also the list, and the overrides merged with it. */
  function LoadBody(documentKey: string, overridesData: Value, extracted: seq<Value>, php: PhpRuntime): Object {
    if extracted == [] then map["overrides" := overridesData, "document_key" := Str(documentKey)]
    else map["overrides" := Dict(LoadMerge(PhpEntries(overridesData), ById(extracted, php))),
             "document_key" := Str(documentKey), "fields" := List(extracted)]
  }

  /** The request's `fields` when it is an array (read through `PhpValues`). */
  function RequestFields(data: Object): Option<seq<Value>> {
    var f := PhpCoalesce(data, "fields", Null);
    if PhpIsArray(f) then Some(PhpValues(f)) else None
  }

  /** What running the extractor script on the PDF comes to: the fields it printed (empty when
      the output is not a non-empty array), or the message `loadOverrides` reports under
      `fields_extractor_error` (script not found, failed run, exception). */
  datatype ExtractorRun = ExtractorFields(fields: seq<Value>) | ExtractorError(message: string)

  /** Whether a non-blank script path is configured, the script run as a function of the PDF, and
      the size above which the PDF is not handed to it. */
  datatype ExtractorConfig = ExtractorConfig(scriptSet: bool, run: string -> ExtractorRun, maxPdfSize: int)

  /** What `resolvePdfContentsFromRequest` comes to: the PDF, none, or an Error nobody catches. */
  datatype PdfLookup = PdfFound(contents: string) | PdfNone | PdfCrash(message: string)

  const UndefinedAllowlistCall := "Call to undefined method AcroFormOverridesController::isUrlAllowedByAllowlist()"

  /** `resolvePdfContentsFromRequest`: a string `pdf_url`, trimmed and validated, then fetched;
      otherwise a string `pdf_content`, base64-decoded; `null` on any failure. As written, the
      allowlist step reads `$this->proxyUrlAllowlist` and calls `$this->isUrlAllowedByAllowlist`,
      neither of which this controller declares, so every valid URL ends in an Error. `Intended`
      runs the validator's checks that `apply` runs: the allowlist, then the SSRF guard. */
  function LoadPdf(v: Pdf.Version, data: Object, cfg: PdfConfig): (o: PdfLookup)
    ensures o.PdfCrash? <==>
      && v == Pdf.AsWritten && HasStringField(data, "pdf_url")
      && PhpTrim(data["pdf_url"].s) != "" && cfg.pdfRt.validUrl(PhpTrim(data["pdf_url"].s))
    ensures o.PdfFound? && HasStringField(data, "pdf_url") ==>
      var url := PhpTrim(data["pdf_url"].s);
      && ProxyUrlValidator.IsAllowedByAllowlist(url, cfg.allowlist, cfg.urlRt)
      && !ProxyUrlValidator.IsBlockedForSsrf(url, cfg.urlRt)
      && cfg.pdfRt.download(url) == Some(o.contents)
    ensures o.PdfFound? && !HasStringField(data, "pdf_url") ==>
      HasStringField(data, "pdf_content") && cfg.pdfRt.base64Decode(data["pdf_content"].s) == Some(o.contents)
  {
    if HasStringField(data, "pdf_url") then
      var url := PhpTrim(data["pdf_url"].s);
      if url == "" || !cfg.pdfRt.validUrl(url) then PdfNone
      else if v == Pdf.AsWritten then PdfCrash(UndefinedAllowlistCall)
      else if !ProxyUrlValidator.IsAllowedByAllowlist(url, cfg.allowlist, cfg.urlRt) then PdfNone
      else if ProxyUrlValidator.IsBlockedForSsrf(url, cfg.urlRt) then PdfNone
      else
        match cfg.pdfRt.download(url)
        case None => PdfNone
        case Some(body) => PdfFound(body)
    else if HasStringField(data, "pdf_content") then
      match cfg.pdfRt.base64Decode(data["pdf_content"].s)
      case None => PdfNone
      case Some(decoded) => PdfFound(decoded)
    else PdfNone
  }

  /** The intended lookup finds the PDF `apply` would use for the same body, and, within the size
      cap, `apply` uses the PDF it finds. */
  lemma LoadPdfAgreesWithApply(data: Object, cfg: PdfConfig)
    ensures ResolvePdf(data, cfg).PdfLoaded? ==> LoadPdf(Pdf.Intended, data, cfg) == PdfFound(ResolvePdf(data, cfg).contents)
    ensures var o := LoadPdf(Pdf.Intended, data, cfg);
      o.PdfFound? && |o.contents| <= cfg.maxPdfSize ==> ResolvePdf(data, cfg) == PdfLoaded(o.contents)
  {
  }

  /** The fields the load answer is built from and the extractor error it reports, or the Error
      that ends the request. */
  datatype Extraction = Extraction(fields: seq<Value>, error: Option<string>) | ExtractionCrash(message: string)

  /** The extraction step of `loadOverrides`: the request's non-empty `fields` as they are;
      otherwise, when the PDF resolves, a script is set and the PDF fits the cap, what the script
      gives; otherwise no fields. */
  function ExtractionOf(v: Pdf.Version, data: Object, cfg: PdfConfig, ex: ExtractorConfig): (r: Extraction)
    ensures RequestFields(data).Some? && RequestFields(data).value != [] ==>
      r == Extraction(RequestFields(data).value, None)
    ensures r.ExtractionCrash? <==>
      (RequestFields(data).None? || RequestFields(data).value == []) && LoadPdf(v, data, cfg).PdfCrash?
    ensures r.Extraction? && r.error.Some? ==>
      var pdf := LoadPdf(v, data, cfg);
      pdf.PdfFound? && ex.scriptSet && ex.run(pdf.contents) == ExtractorError(r.error.value)
  {
    var requested := RequestFields(data);
    if requested.Some? && requested.value != [] then Extraction(requested.value, None)
    else
      match LoadPdf(v, data, cfg)
      case PdfCrash(m) => ExtractionCrash(m)
      case PdfNone => Extraction([], None)
      case PdfFound(pdf) =>
        if !ex.scriptSet || |pdf| > ex.maxPdfSize then Extraction([], None)
        else
          match ex.run(pdf)
          case ExtractorFields(fs) => Extraction(fs, None)
          case ExtractorError(m) => Extraction([], Some(m))
  }

  /** A load request with a valid key, no non-empty `fields` and a valid `pdf_url` throws as
      written, and never with the intended lookup. */
  lemma LoadCrashesAsWritten(data: Object, cfg: PdfConfig, ex: ExtractorConfig)
    requires RequestFields(data).None? || RequestFields(data).value == []
    requires HasStringField(data, "pdf_url")
    requires PhpTrim(data["pdf_url"].s) != "" && cfg.pdfRt.validUrl(PhpTrim(data["pdf_url"].s))
    ensures ExtractionOf(Pdf.AsWritten, data, cfg, ex) == ExtractionCrash(UndefinedAllowlistCall)
    ensures ExtractionOf(Pdf.Intended, data, cfg, ex).Extraction?
  {
  }

  /** The answer body with the extractor's error, when there is one. */
  function WithExtractorError(body: Object, error: Option<string>): (out: Object)
    ensures "fields_extractor_error" in out <==> "fields_extractor_error" in body || error.Some?
    ensures error.Some? ==> out["fields_extractor_error"] == Str(error.value)
    ensures forall k :: k in body && k != "fields_extractor_error" ==> k in out && out[k] == body[k]
  {
    if error.Some? then body["fields_extractor_error" := Str(error.value)] else body
  }

  /** `loadOverrides`, with the PDF lookup of version `v`, the storage read and the extraction
      step, then the body. */
  method LoadOverrides(v: Pdf.Version, enabled: bool, data: Object, cfg: PdfConfig, ex: ExtractorConfig,
                       storage: SessionStorage, php: PhpRuntime)
      returns (r: Response)
    ensures !enabled ==> r == Content(404, "", false)
    ensures var k := BodyKey(PhpCoalesce(data, "document_key", Str("")));
      enabled && !IsValidDocumentKey(k) ==> r == JsonError(400, "document_key required in body")
    ensures var k := BodyKey(PhpCoalesce(data, "document_key", Str("")));
      var saved := Read(storage.session, k, php);
      var x := ExtractionOf(v, data, cfg, ex);
      enabled && IsValidDocumentKey(k) ==>
        if x.ExtractionCrash? then r == Uncaught(x.message)
        else r == Json(200, Dict(WithExtractorError(
               LoadBody(k, if saved.Some? then saved.value.overrides else List([]), x.fields, php), x.error)))
  {
    if !enabled {
      return Content(404, "", false);
    }
    var raw := PhpCoalesce(data, "document_key", Str(""));
    var documentKey := if raw.Str? then PhpTrim(raw.s) else "";
    if documentKey == "" || !IsValidDocumentKey(documentKey) {
      return JsonError(400, "document_key required in body");
    }
    var x := Extract(v, data, cfg, ex);
    if x.ExtractionCrash? {
      return Uncaught(x.message);
    }
    var body := LoadBodyFor(documentKey, x.fields, storage, php);
    if x.error.Some? {
      body := body["fields_extractor_error" := Str(x.error.value)];
    }
    r := Json(200, Dict(body));
  }

  /** The extraction step as the controller runs it: the request's fields, else the lookup and
      the script. */
  method Extract(v: Pdf.Version, data: Object, cfg: PdfConfig, ex: ExtractorConfig) returns (x: Extraction)
    ensures x == ExtractionOf(v, data, cfg, ex)
  {
    var requested := RequestFields(data);
    var extracted := if requested.Some? then requested.value else [];
    var extractorError: Option<string> := None;
    if extracted == [] {
      var pdf := LoadPdf(v, data, cfg);
      if pdf.PdfCrash? {
        return ExtractionCrash(pdf.message);
      }
      if pdf.PdfFound? && ex.scriptSet && |pdf.contents| <= ex.maxPdfSize {
        match ex.run(pdf.contents)
        case ExtractorFields(fs) =>
          extracted := fs;
        case ExtractorError(m) =>
          extractorError := Some(m);
      }
    }
    x := Extraction(extracted, extractorError);
  }

  /** The part of `loadOverrides` after the key check. */
  method LoadBodyFor(documentKey: string, extracted: seq<Value>, storage: SessionStorage, php: PhpRuntime)
      returns (out: Object)
    ensures var saved := Read(storage.session, documentKey, php);
      out == LoadBody(documentKey, if saved.Some? then saved.value.overrides else List([]), extracted, php)
  {
    var overrides := storage.Get(documentKey, php);
    var overridesData := if overrides.Some? then overrides.value.overrides else List([]);
    out := map["overrides" := overridesData, "document_key" := Str(documentKey)];
    if |extracted| > 0 {
      out := out["fields" := List(extracted)];
    }
    if |extracted| > 0 {
      var full := MergeOverrides(PhpEntries(overridesData), extracted, php);
      out := out["overrides" := Dict(full)];
      LoadBodyUpdates(overridesData, Str(documentKey), List(extracted), Dict(full));
    }
  }

  /** Writing `fields` and then `overrides` again gives the three-key body. */
  lemma LoadBodyUpdates(a: Value, b: Value, c: Value, d: Value)
    ensures map["overrides" := a, "document_key" := b]["fields" := c]["overrides" := d]
         == map["overrides" := d, "document_key" := b, "fields" := c]
  {
  }

  // ---------------------------------------------------------------- apply

  /** The request's `patches` (after `?? []`): not an array, or an array given by its keys and
      values in iteration order. */
  datatype PatchList = NotAnArray | PatchArray(entries: seq<(string, Value)>)

  /** How reading the patch list ends: the patches built from the array entries, the 400 answer
      for a patch `fromArray` refuses, or the TypeError the handler does not catch. */
  datatype PatchesOutcome = Parsed(patches: seq<AcroFormFieldPatch.FieldPatch>) | Rejected(message: string) | Crashed(message: string)

  /** The `foreach` over the first `n` entries: non-array entries are skipped, the first refused
      patch ends the loop. */
  function ParsePatches(entries: seq<(string, Value)>, n: nat, php: PhpRuntime): PatchesOutcome
    requires n <= |entries|
  {
    if n == 0 then Parsed([])
    else
      var before := ParsePatches(entries, n - 1, php);
      var (i, p) := entries[n - 1];
      if !before.Parsed? || !PhpIsArray(p) then before
      else
        match AcroFormFieldPatch.FromArray(PhpEntries(p), php)
        case Success(patch) => Parsed(before.patches + [patch])
        case Failure(message) =>
          if message == AcroFormFieldPatch.FieldIdRequired then Rejected("Patch " + i + ": " + message)
          else Crashed(message)
  }

  /** The patch loop of `apply`. */
  method ReadPatches(entries: seq<(string, Value)>, php: PhpRuntime) returns (r: PatchesOutcome)
    ensures r == ParsePatches(entries, |entries|, php)
  {
    var patches := [];
    for n := 0 to |entries|
      invariant ParsePatches(entries, n, php) == Parsed(patches)
    {
      var (i, p) := entries[n];
      if !PhpIsArray(p) {
        continue;
      }
      var built := AcroFormFieldPatch.FromArray(PhpEntries(p), php);
      if built.Failure? {
        if built.error == AcroFormFieldPatch.FieldIdRequired {
          r := Rejected("Patch " + i + ": " + built.error);
        } else {
          r := Crashed(built.error);
        }
        RejectionIsFinal(entries, n + 1, |entries|, php);
        return;
      }
      patches := patches + [built.value];
    }
    r := Parsed(patches);
  }

  /** Once the loop has stopped, later entries do not change the outcome. */
  lemma {:induction false} RejectionIsFinal(entries: seq<(string, Value)>, n: nat, m: nat, php: PhpRuntime)
    requires n <= m <= |entries| && !ParsePatches(entries, n, php).Parsed?
    ensures ParsePatches(entries, m, php) == ParsePatches(entries, n, php)
    decreases m - n
  {
    if n < m {
      StoppedStaysStopped(entries, n, php);
      RejectionIsFinal(entries, n + 1, m, php);
    }
  }

  lemma StoppedStaysStopped(entries: seq<(string, Value)>, k: nat, php: PhpRuntime)
    requires k < |entries| && !ParsePatches(entries, k, php).Parsed?
    ensures ParsePatches(entries, k + 1, php) == ParsePatches(entries, k, php)
  {
  }

  /** The array entries of the first `n` entries, the ones the loop does not skip. */
  function ArrayEntries(entries: seq<(string, Value)>, n: nat): seq<Value>
    requires n <= |entries|
  {
    if n == 0 then []
    else ArrayEntries(entries, n - 1) + (if PhpIsArray(entries[n - 1].1) then [entries[n - 1].1] else [])
  }

  /** Every array entry is a patch `fromArray` accepts. */
  predicate AllBuild(a: seq<Value>, php: PhpRuntime) {
    forall j :: 0 <= j < |a| ==> AcroFormFieldPatch.FromArray(PhpEntries(a[j]), php).Success?
  }

  /** The loop accepts the list exactly when `fromArray` accepts every array entry. */
  lemma {:induction false} ParsedIffAllBuild(entries: seq<(string, Value)>, n: nat, php: PhpRuntime)
    requires n <= |entries|
    ensures ParsePatches(entries, n, php).Parsed? <==> AllBuild(ArrayEntries(entries, n), php)
  {
    if n > 0 {
      var k := n - 1;
      ParsedIffAllBuild(entries, k, php);
      ParsedStep(entries, k, php);
    }
  }

  lemma ParsedStep(entries: seq<(string, Value)>, k: nat, php: PhpRuntime)
    requires k < |entries|
    requires ParsePatches(entries, k, php).Parsed? <==> AllBuild(ArrayEntries(entries, k), php)
    ensures ParsePatches(entries, k + 1, php).Parsed? <==> AllBuild(ArrayEntries(entries, k + 1), php)
  {
    var a0 := ArrayEntries(entries, k);
    var a := ArrayEntries(entries, k + 1);
    var p := entries[k].1;
    if !PhpIsArray(p) {
      assert a == a0;
    } else {
      assert a == a0 + [p];
      if !AllBuild(a0, php) {
        var j :| 0 <= j < |a0| && !AcroFormFieldPatch.FromArray(PhpEntries(a0[j]), php).Success?;
        assert a[j] == a0[j];
      } else if !AcroFormFieldPatch.FromArray(PhpEntries(p), php).Success? {
        assert a[|a0|] == p;
      }
    }
  }

  /** When the loop accepts the list, the patches are the array entries read in order. */
  lemma {:induction false} ParsedPatchesAreArrayEntries(entries: seq<(string, Value)>, n: nat, php: PhpRuntime)
    requires n <= |entries| && ParsePatches(entries, n, php).Parsed?
    ensures |ParsePatches(entries, n, php).patches| == |ArrayEntries(entries, n)|
    ensures forall j :: 0 <= j < |ArrayEntries(entries, n)| ==>
      AcroFormFieldPatch.FromArray(PhpEntries(ArrayEntries(entries, n)[j]), php)
        == Success(ParsePatches(entries, n, php).patches[j])
  {
    if n > 0 {
      var k := n - 1;
      assert ParsePatches(entries, k, php).Parsed?;
      ParsedPatchesAreArrayEntries(entries, k, php);
      var a0 := ArrayEntries(entries, k);
      var a := ArrayEntries(entries, n);
      var p := entries[k].1;
      if PhpIsArray(p) {
        assert a == a0 + [p];
      } else {
        assert a == a0;
      }
    }
  }

  /** A refusal names the key of the first array entry without an id. */
  predicate RefusedAt(entries: seq<(string, Value)>, j: nat, n: nat, php: PhpRuntime)
    requires j < n <= |entries|
  {
    && PhpIsArray(entries[j].1)
    && AcroFormFieldPatch.FromArray(PhpEntries(entries[j].1), php) == Failure(AcroFormFieldPatch.FieldIdRequired)
    && ParsePatches(entries, j, php).Parsed?
    && ParsePatches(entries, n, php) == Rejected("Patch " + entries[j].0 + ": " + AcroFormFieldPatch.FieldIdRequired)
  }

  lemma {:induction false} RejectionNamesThePatch(entries: seq<(string, Value)>, n: nat, php: PhpRuntime)
    requires n <= |entries| && ParsePatches(entries, n, php).Rejected?
    ensures exists j: nat :: j < n && RefusedAt(entries, j, n, php)
  {
    var k := n - 1;
    if ParsePatches(entries, k, php).Rejected? {
      RejectionNamesThePatch(entries, k, php);
      var j: nat :| j < k && RefusedAt(entries, j, k, php);
      StoppedStaysStopped(entries, k, php);
      assert RefusedAt(entries, j, n, php);
    } else {
      RefusedHere(entries, k, php);
    }
  }

  lemma RefusedHere(entries: seq<(string, Value)>, k: nat, php: PhpRuntime)
    requires k < |entries| && !ParsePatches(entries, k, php).Rejected? && ParsePatches(entries, k + 1, php).Rejected?
    ensures RefusedAt(entries, k, k + 1, php)
  {
    assert ParsePatches(entries, k, php).Parsed?;
  }

  /** What the configured editor does with the patches: a PDF, or an AcroFormEditorException. */
  datatype EditorOutcome = Edited(pdf: string) | EditorFailed(message: string)

  /** The response once the event has been dispatched, in the controller's order: validation
      result, error, modified PDF, editor, 501. */
  function ApplyResponse(validationResult: Option<Value>, error: Option<string>, errorDetail: Option<string>,
                         modifiedPdf: Option<string>, editor: Option<EditorOutcome>, validateOnly: bool,
                         patchCount: nat): Response
  {
    if validationResult.Some? then Json(200, validationResult.value)
    else if error.Some? then
      Json(400, Dict(if errorDetail.Some? then map["error" := Str(error.value), "detail" := Str(errorDetail.value)]
                     else map["error" := Str(error.value)]))
    else if modifiedPdf.Some? then Content(200, modifiedPdf.value, true)
    else if editor.Some? then
      match editor.value
      case Edited(pdf) =>
        if validateOnly then
          Json(200, Dict(map["success" := Bool(true), "message" := Str("Apply would succeed"), "patches_count" := Int(patchCount)]))
        else Content(200, pdf, true)
      case EditorFailed(message) =>
        if validateOnly then Json(200, Dict(map["success" := Bool(false), "error" := Str(message)]))
        else JsonError(400, message)
    else Content(501, "No editor configured", false)
  }

  /** An event that has a response is answered from the event; the editor is never consulted. */
  lemma AnsweredEventIgnoresEditor(validationResult: Option<Value>, error: Option<string>, errorDetail: Option<string>,
                                   modifiedPdf: Option<string>, e1: Option<EditorOutcome>, e2: Option<EditorOutcome>,
                                   validateOnly: bool, patchCount: nat)
    requires validationResult.Some? || error.Some? || modifiedPdf.Some?
    ensures ApplyResponse(validationResult, error, errorDetail, modifiedPdf, e1, validateOnly, patchCount)
         == ApplyResponse(validationResult, error, errorDetail, modifiedPdf, e2, validateOnly, patchCount)
  {
  }

  /** 501 exactly when nothing answered: no listener response and no editor. */
  lemma NotImplementedIff(validationResult: Option<Value>, error: Option<string>, errorDetail: Option<string>,
                          modifiedPdf: Option<string>, editor: Option<EditorOutcome>, validateOnly: bool, patchCount: nat)
    ensures ApplyResponse(validationResult, error, errorDetail, modifiedPdf, editor, validateOnly, patchCount).Content?
            && ApplyResponse(validationResult, error, errorDetail, modifiedPdf, editor, validateOnly, patchCount).status == 501
        <==> validationResult.None? && error.None? && modifiedPdf.None? && editor.None?
  {
  }

  /** In validate-only mode the editor's PDF is never sent: the answer is JSON with status 200. */
  lemma ValidateOnlySendsNoEditedPdf(error: Option<string>, errorDetail: Option<string>, pdf: string, message: string, patchCount: nat)
    ensures ApplyResponse(None, None, errorDetail, None, Some(Edited(pdf)), true, patchCount).Json?
    ensures ApplyResponse(None, None, errorDetail, None, Some(EditorFailed(message)), true, patchCount) == Json(200, Dict(map["success" := Bool(false), "error" := Str(message)]))
  {
  }

  /** What the listeners do with the event, as setter calls in the order the model makes them. */
  datatype ListenerCalls = ListenerCalls(
    modifiedPdf: Option<string>, error: Option<string>, errorDetail: Option<string>, validationResult: Option<Value>)

  // ---------------------------------------------------------------- the PDF of an apply request

  /** The library calls the PDF step makes and the model does not write out:
      `filter_var($url, FILTER_VALIDATE_URL)`, the GET request (`None` when it throws or the
      status is not 2xx), strict `base64_decode` (`None` for `false`; the decoded bytes one char
      each) and the translator. */
  datatype PdfRuntime = PdfRuntime(
    validUrl: string -> bool,
    download: string -> Option<string>,
    base64Decode: string -> Option<string>,
    trans: string -> string)

  /** The PHP state around the PDF step: the runtime above, the URL validator's allowlist and
      its own library calls, and the size cap for an uploaded PDF. */
  datatype PdfConfig = PdfConfig(
    pdfRt: PdfRuntime, allowlist: seq<string>, urlRt: ProxyUrlValidator.UrlRuntime, maxPdfSize: int)

  /** The PDF the request names, or the response that ends the request early. */
  datatype PdfOutcome = PdfLoaded(contents: string) | PdfRefused(response: Response)

  predicate HasStringField(data: Object, k: string) {
    PhpIsset(data, k) && data[k].Str?
  }

  /** How `apply` resolves the PDF: a string `pdf_url` is trimmed and validated, checked against
      the allowlist and the SSRF guard, then fetched; otherwise a string `pdf_content` is
      base64-decoded and its size checked; with neither, the request is refused. */
  function ResolvePdf(data: Object, cfg: PdfConfig): (o: PdfOutcome)
    ensures o.PdfLoaded? && HasStringField(data, "pdf_url") ==>
      var url := PhpTrim(data["pdf_url"].s);
      && url != "" && cfg.pdfRt.validUrl(url)
      && ProxyUrlValidator.IsAllowedByAllowlist(url, cfg.allowlist, cfg.urlRt)
      && !ProxyUrlValidator.IsBlockedForSsrf(url, cfg.urlRt)
      && cfg.pdfRt.download(url) == Some(o.contents)
    ensures o.PdfLoaded? && !HasStringField(data, "pdf_url") ==>
      && HasStringField(data, "pdf_content")
      && cfg.pdfRt.base64Decode(data["pdf_content"].s) == Some(o.contents)
      && |o.contents| <= cfg.maxPdfSize
    ensures !HasStringField(data, "pdf_url") && !HasStringField(data, "pdf_content") ==>
      o == PdfRefused(JsonError(400, "Provide pdf_url or pdf_content"))
  {
    if HasStringField(data, "pdf_url") then
      var url := PhpTrim(data["pdf_url"].s);
      if url == "" || !cfg.pdfRt.validUrl(url) then
        PdfRefused(JsonError(400, cfg.pdfRt.trans("proxy.invalid_url")))
      else if !ProxyUrlValidator.IsAllowedByAllowlist(url, cfg.allowlist, cfg.urlRt) then
        PdfRefused(JsonError(403, cfg.pdfRt.trans("proxy.url_not_allowed")))
      else if ProxyUrlValidator.IsBlockedForSsrf(url, cfg.urlRt) then
        PdfRefused(JsonError(403, cfg.pdfRt.trans("proxy.url_not_allowed")))
      else
        match cfg.pdfRt.download(url)
        case None => PdfRefused(Content(502, cfg.pdfRt.trans("proxy.error_load"), false))
        case Some(body) => PdfLoaded(body)
    else if HasStringField(data, "pdf_content") then
      match cfg.pdfRt.base64Decode(data["pdf_content"].s)
      case None => PdfRefused(JsonError(400, "Invalid base64 pdf_content"))
      case Some(decoded) =>
        if |decoded| > cfg.maxPdfSize then PdfRefused(JsonError(400, "PDF too large"))
        else PdfLoaded(decoded)
    else PdfRefused(JsonError(400, "Provide pdf_url or pdf_content"))
  }

  /** A valid `pdf_url` is answered with 403 exactly when the allowlist refuses it or the SSRF
      guard blocks it. */
  lemma PdfUrlForbiddenIff(data: Object, cfg: PdfConfig)
    requires HasStringField(data, "pdf_url")
    requires var url := PhpTrim(data["pdf_url"].s); url != "" && cfg.pdfRt.validUrl(url)
    ensures var url := PhpTrim(data["pdf_url"].s);
      ResolvePdf(data, cfg) == PdfRefused(JsonError(403, cfg.pdfRt.trans("proxy.url_not_allowed")))
      <==> !ProxyUrlValidator.IsAllowedByAllowlist(url, cfg.allowlist, cfg.urlRt)
           || ProxyUrlValidator.IsBlockedForSsrf(url, cfg.urlRt)
  {
    var url := PhpTrim(data["pdf_url"].s);
    if ProxyUrlValidator.IsAllowedByAllowlist(url, cfg.allowlist, cfg.urlRt)
       && !ProxyUrlValidator.IsBlockedForSsrf(url, cfg.urlRt) {
      match cfg.pdfRt.download(url)
      case None =>
        assert ResolvePdf(data, cfg).response.status == 502;
      case Some(body) =>
    }
  }

  /** With a string `pdf_url`, whatever `pdf_content` holds is never read. */
  lemma PdfUrlIgnoresContent(data: Object, cfg: PdfConfig, content: Value)
    requires HasStringField(data, "pdf_url")
    ensures ResolvePdf(data["pdf_content" := content], cfg) == ResolvePdf(data, cfg)
  {
    assert data["pdf_content" := content]["pdf_url"] == data["pdf_url"];
  }

  /** An allowed, unblocked URL is answered with 502 exactly when the download fails. */
  lemma PdfUrlBadGatewayIff(data: Object, cfg: PdfConfig)
    requires HasStringField(data, "pdf_url")
    requires var url := PhpTrim(data["pdf_url"].s);
      && url != "" && cfg.pdfRt.validUrl(url)
      && ProxyUrlValidator.IsAllowedByAllowlist(url, cfg.allowlist, cfg.urlRt)
      && !ProxyUrlValidator.IsBlockedForSsrf(url, cfg.urlRt)
    ensures ResolvePdf(data, cfg).PdfRefused? <==> cfg.pdfRt.download(PhpTrim(data["pdf_url"].s)).None?
    ensures ResolvePdf(data, cfg).PdfRefused? ==>
      ResolvePdf(data, cfg).response.Content? && ResolvePdf(data, cfg).response.status == 502
  {
  }

  /** Without a string `pdf_url`, an uploaded PDF is refused with 400 exactly when it is not
      strict base64 or decodes to more than `maxPdfSize` bytes. */
  lemma PdfContentRefusedIff(data: Object, cfg: PdfConfig)
    requires !HasStringField(data, "pdf_url") && HasStringField(data, "pdf_content")
    ensures var decoded := cfg.pdfRt.base64Decode(data["pdf_content"].s);
      && (ResolvePdf(data, cfg).PdfRefused? <==> decoded.None? || |decoded.value| > cfg.maxPdfSize)
      && (ResolvePdf(data, cfg).PdfRefused? ==>
            ResolvePdf(data, cfg).response.Json? && ResolvePdf(data, cfg).response.status == 400)
  {
  }

  /** `apply`: flags, the patch list, the PDF, the event, then the response. `data` is the request
      body the PDF fields are read from. */
  method Apply(enabled: bool, allowPdfModify: bool, debug: bool, maxPatches: int, patches: PatchList,
               validateOnlyField: Option<Value>, data: Object, cfg: PdfConfig, listeners: ListenerCalls,
               editor: Option<EditorOutcome>, php: PhpRuntime) returns (r: Response)
    requires listeners.validationResult.Some? ==> PhpIsArray(listeners.validationResult.value)
    ensures !enabled || !allowPdfModify ==> r == Content(404, "", false)
    ensures enabled && allowPdfModify && patches.NotAnArray? ==> r == JsonError(400, "patches must be an array")
    ensures enabled && allowPdfModify && patches.PatchArray? && |patches.entries| > maxPatches
            ==> r == JsonError(400, "Too many patches")
    ensures enabled && allowPdfModify && patches.PatchArray? && |patches.entries| <= maxPatches ==>
      var parsed := ParsePatches(patches.entries, |patches.entries|, php);
      && (parsed.Rejected? ==> r == JsonError(400, parsed.message))
      && (parsed.Crashed? ==> r == Uncaught(parsed.message))
      && (parsed.Parsed? && ResolvePdf(data, cfg).PdfRefused? ==> r == ResolvePdf(data, cfg).response)
      && (parsed.Parsed? && ResolvePdf(data, cfg).PdfLoaded? ==>
            r == ApplyResponse(listeners.validationResult, listeners.error, listeners.errorDetail, listeners.modifiedPdf,
                               editor, debug && validateOnlyField.Some? && !PhpEmpty(validateOnlyField.value),
                               |parsed.patches|))
  {
    if !enabled || !allowPdfModify {
      return Content(404, "", false);
    }
    if patches.NotAnArray? {
      return JsonError(400, "patches must be an array");
    }
    if |patches.entries| > maxPatches {
      return JsonError(400, "Too many patches");
    }
    var parsed := ReadPatches(patches.entries, php);
    if parsed.Rejected? {
      return JsonError(400, parsed.message);
    }
    if parsed.Crashed? {
      return Uncaught(parsed.message);
    }
    var pdf := ResolvePdf(data, cfg);
    if pdf.PdfRefused? {
      return pdf.response;
    }
    var validateOnly := debug && validateOnlyField.Some? && !PhpEmpty(validateOnlyField.value);
    var event := new ApplyRequestEvent(pdf.contents, parsed.patches, validateOnly);
    if listeners.modifiedPdf.Some? {
      event.SetModifiedPdf(listeners.modifiedPdf.value);
    }
    if listeners.error.Some? {
      event.SetError(listeners.error.value);
    }
    if listeners.errorDetail.Some? {
      event.SetErrorDetail(listeners.errorDetail.value);
    }
    if listeners.validationResult.Some? {
      event.SetValidationResult(listeners.validationResult.value);
    }
    r := Respond(event, editor);
  }

  /** The part of `apply` after dispatch, read off the event. */
  method Respond(event: ApplyRequestEvent, editor: Option<EditorOutcome>) returns (r: Response)
    ensures r == ApplyResponse(event.validationResult, event.error, event.errorDetail, event.modifiedPdf,
                               editor, event.validateOnly, |event.patches|)
  {
    if event.validationResult.Some? {
      return Json(200, event.validationResult.value);
    }
    if event.error.Some? {
      var payload := map["error" := Str(event.error.value)];
      if event.errorDetail.Some? {
        payload := payload["detail" := Str(event.errorDetail.value)];
      }
      return Json(400, Dict(payload));
    }
    if event.modifiedPdf.Some? {
      return Content(200, event.modifiedPdf.value, true);
    }
    if editor.Some? {
      match editor.value
      case Edited(pdf) =>
        if event.validateOnly {
          return Json(200, Dict(map["success" := Bool(true), "message" := Str("Apply would succeed"),
                                    "patches_count" := Int(|event.patches|)]));
        }
        return Content(200, pdf, true);
      case EditorFailed(message) =>
        if event.validateOnly {
          return Json(200, Dict(map["success" := Bool(false), "error" := Str(message)]));
        }
        return JsonError(400, message);
    }
    r := Content(501, "No editor configured", false);
  }
}
