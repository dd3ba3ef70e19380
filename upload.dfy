/**
 * The upload route, `POST` in app/api/upload/route.ts: resolve the script
 * and its filename from a JSON or form payload, draw an owner key, store one
 * record holding the Base64 of the script's UTF-8 bytes, and answer with the
 * id, the key, the execute URL and a loader line.
 *
 * What the source takes from its environment is passed in: the script id
 * (`nanoid(12)`), the 32 key draws (`Math.random`), the request origin, the
 * creation timestamp and whether the blob store accepts the write.
 */
module Upload {
  import opened Wrappers
  import Utf8
  import Base64
  import opened Text
  import opened OwnerKey
  import opened Links
  import opened MediaType

  /**
   * A `File` entry of a form: its name, `file.size` (the number of bytes it
   * holds) and what `file.text()` reads from those bytes. The two are kept
   * apart because the reader drops a leading byte-order mark: a file of
   * bytes EF BB BF has size 3 and text "".
   */
  datatype FilePart = FilePart(name: string, size: nat, text: string)

  /**
   * The request body, as the framework's parsers would read it. A missing or
   * null field is `None`; a body its parser rejects is `Unparsable`.
   */
  datatype Body =
    | JsonObject(script: Option<string>, filename: Option<string>)
    | Form(file: Option<FilePart>, script: Option<string>, filename: Option<string>)
    | Unparsable

  /** The parts of a request the route reads. */
  datatype Request = Request(origin: string, contentType: Option<string>, body: Body)

  /** The script and filename a payload yields, or why it yields none. */
  datatype Resolution =
    | Resolved(content: string, filename: string)
    | NoContent
    | ParseError

  /** The persisted metadata object. */
  datatype Record = Record(script: string, ownerKey: string, filename: string, createdAt: string)

  /** The JSON answer: the capability bundle, or an error with its HTTP status. */
  datatype Response =
    | Uploaded(id: string, ownerKey: string, filename: string, loadstring: string, executeUrl: string)
    | Failed(status: int, error: string)

  /** The blob store state after a request, and the answer. */
  datatype Outcome = Outcome(response: Response, store: map<string, Record>)

  const DefaultFilename: string := "script.lua"
  const JsonMediaType: string := "application/json"
  const NoContentError: string := "No script content provided"
  const UploadError: string := "Failed to upload script"

  /** A string field read with JavaScript truthiness: absent, null and "" are all false. */
  predicate IsGiven(field: Option<string>) {
    field.Some? && field.value != ""
  }

  /** `field || "script.lua"`. */
  function FilenameOr(field: Option<string>): (name: string)
    ensures name != ""
    ensures IsGiven(field) ==> name == field.value
    ensures !IsGiven(field) ==> name == DefaultFilename
  {
    if IsGiven(field) then field.value else DefaultFilename
  }

  /** The JSON branch is taken when the content-type header (missing means "") mentions application/json. */
  predicate IsJsonRequest(contentType: Option<string>) {
    Contains(contentType.GetOr(""), JsonMediaType)
  }

  /** Which script and filename the route settles on. */
  function Resolve(req: Request): (res: Resolution) {
    if IsJsonRequest(req.contentType) then
      match req.body
      case JsonObject(script, filename) =>
        if !IsGiven(script) then NoContent else Resolved(script.value, FilenameOr(filename))
      case _ => ParseError
    else if !IsFormMediaType(req.contentType.GetOr("")) then ParseError
    else
      match req.body
      case Form(file, text, formFilename) =>
        if file.Some? && file.value.size > 0 then Resolved(file.value.text, file.value.name)
        else if IsGiven(text) then Resolved(text.value, FilenameOr(formFilename))
        else NoContent
      case _ => ParseError
  }

  /** The record stored for a script: its text as Base64 over UTF-8, and the metadata as given. */
  function MakeRecord(content: string, ownerKey: string, filename: string, createdAt: string): (r: Record)
    ensures Base64.Decode(r.script) == Some(Utf8.Encode(content))
    ensures |r.script| == 4 * ((|Utf8.Encode(content)| + 2) / 3)
    ensures forall i :: 0 <= i < |r.script| ==> Base64.IsEncodingChar(r.script[i])
    ensures r.ownerKey == ownerKey && r.filename == filename && r.createdAt == createdAt
  {
    var bytes := Utf8.Encode(content);
    Base64.DecodeEncode(bytes);
    Record(Base64.Encode(bytes), ownerKey, filename, createdAt)
  }

  /**
   * The script text a stored record carries: its Base64, then its UTF-8, both
   * decoded strictly. `None` marks a record this upload route never writes.
   */
  function StoredText(r: Record): (text: Option<string>) {
    match Base64.Decode(r.script)
    case None => None
    case Some(bytes) => Utf8.Decode(bytes)
  }

  /** What the route does to the store and what it answers, as a function of everything it depends on. */
  function Handle(store: map<string, Record>, req: Request, id: string, draws: seq<int>,
                  createdAt: string, putSucceeds: bool): (o: Outcome)
    requires ValidDraws(draws)
  {
    match Resolve(req)
    case ParseError => Outcome(Failed(500, UploadError), store)
    case NoContent => Outcome(Failed(400, NoContentError), store)
    case Resolved(content, filename) =>
      var key := KeyOf(draws);
      if !putSucceeds then Outcome(Failed(500, UploadError), store)
      else
        var url := ExecuteUrl(req.origin, id);
        Outcome(Uploaded(id, key, filename, Loadstring(url), url),
                store[StoragePath(id) := MakeRecord(content, key, filename, createdAt)])
  }

  // ---------------------------------------------------------------------------
  // Payload resolution

  /**
   * A missing content-type header (read as "") selects the form branch, whose
   * parser rejects it: the route answers 500 whatever the body.
   */
  lemma MissingHeaderFails(req: Request)
    requires req.contentType.None?
    ensures !IsJsonRequest(req.contentType)
    ensures Resolve(req) == ParseError
  {
    NotFormMediaTypes();
  }

  /**
   * On the form branch the body is read only under a form media type:
   * any other header is a parse failure.
   */
  lemma FormHeaderRequired(req: Request)
    requires !IsJsonRequest(req.contentType) && req.body.Form?
    ensures Resolve(req) == ParseError <==> !IsFormMediaType(req.contentType.GetOr(""))
  {
  }

  /** A form sent as `text/plain` is a 500 and stores nothing. */
  lemma ExamplePlainTextForm(store: map<string, Record>, origin: string, id: string, draws: seq<int>, createdAt: string)
    requires ValidDraws(draws)
    ensures var req := Request(origin, Some("text/plain"), Form(None, Some("print(1)"), None));
      Handle(store, req, id, draws, createdAt, true) == Outcome(Failed(500, UploadError), store)
  {
    NotFormMediaTypes();
  }

  /** The JSON branch is taken exactly when "application/json" occurs somewhere in the header. */
  lemma JsonBranchIff(contentType: string)
    ensures IsJsonRequest(Some(contentType)) <==> exists i :: OccursAt(contentType, JsonMediaType, i)
  {
    ContainsIff(contentType, JsonMediaType);
  }

  /**
   * JSON payload: no script (absent, null or "") is a 400; otherwise the script
   * is taken as is and the filename is the given one or "script.lua".
   */
  lemma JsonResolution(req: Request)
    requires IsJsonRequest(req.contentType) && req.body.JsonObject?
    ensures Resolve(req) == NoContent <==> !IsGiven(req.body.script)
    ensures IsGiven(req.body.script) ==>
      Resolve(req) == Resolved(req.body.script.value, FilenameOr(req.body.filename))
  {
  }

  /**
   * Form payload: a file of at least one byte wins, whatever the script and
   * filename fields say; its text is taken even when it reads as "".
   */
  lemma FileWins(req: Request)
    requires !IsJsonRequest(req.contentType) && IsFormMediaType(req.contentType.GetOr("")) && req.body.Form?
    requires req.body.file.Some? && req.body.file.value.size > 0
    ensures Resolve(req) == Resolved(req.body.file.value.text, req.body.file.value.name)
  {
  }

  /**
   * Form payload without a file, or with a file of zero bytes: a given script
   * field is used, with the filename field or "script.lua"; with neither it is
   * a 400.
   */
  lemma FormTextFallback(req: Request)
    requires !IsJsonRequest(req.contentType) && IsFormMediaType(req.contentType.GetOr("")) && req.body.Form?
    requires req.body.file.None? || req.body.file.value.size == 0
    ensures IsGiven(req.body.script) ==>
      Resolve(req) == Resolved(req.body.script.value, FilenameOr(req.body.filename))
    ensures !IsGiven(req.body.script) ==> Resolve(req) == NoContent
  {
  }

  /** The file branch was taken: a form whose file holds at least one byte. */
  predicate FromFile(req: Request) {
    !IsJsonRequest(req.contentType) && IsFormMediaType(req.contentType.GetOr("")) &&
    req.body.Form? && req.body.file.Some? && req.body.file.value.size > 0
  }

  /**
   * A script resolved from the JSON body or the form's text field is never
   * empty; only the file branch can resolve to "", and it does exactly when
   * the file's text is "".
   */
  lemma ResolvedScriptNonEmpty(req: Request)
    requires Resolve(req).Resolved?
    ensures !FromFile(req) ==> Resolve(req).content != ""
    ensures FromFile(req) ==> (Resolve(req).content == "" <==> req.body.file.value.text == "")
  {
  }

  /**
   * A multipart form whose file holds only a byte-order mark (3 bytes that
   * read as "") is stored: the answer is a success and the record decodes to "".
   */
  lemma ExampleMarkOnlyFile(store: map<string, Record>, origin: string, boundary: string, id: string,
                            draws: seq<int>, createdAt: string)
    requires ValidDraws(draws) && 'j' !in boundary
    ensures var req := Request(origin, Some("multipart/form-data; boundary=" + boundary),
                               Form(Some(FilePart("a.lua", 3, "")), None, None));
      var o := Handle(store, req, id, draws, createdAt, true);
      o.response.Uploaded? && o.response.filename == "a.lua" &&
      StoredText(o.store[StoragePath(id)]) == Some("")
  {
    var header := "multipart/form-data; boundary=" + boundary;
    var req := Request(origin, Some(header), Form(Some(FilePart("a.lua", 3, "")), None, None));
    MultipartWithBoundary(boundary);
    HeaderNotJson(boundary);
    assert Resolve(req) == Resolved("", "a.lua");
    SuccessStoresScript(store, req, id, draws, createdAt, true);
  }

  /** A multipart header whose boundary has no 'j' does not mention application/json. */
  lemma HeaderNotJson(boundary: string)
    requires 'j' !in boundary
    ensures !IsJsonRequest(Some("multipart/form-data; boundary=" + boundary))
  {
    var prefix := "multipart/form-data; boundary=";
    assert 'j' !in prefix;
    assert JsonMediaType[12] == 'j';
    MissingCharNotContained(prefix + boundary, JsonMediaType, 'j');
  }

  // ---------------------------------------------------------------------------
  // The record

  /** The stored record gives back the uploaded script text unchanged: the encoding is not a secret. */
  lemma StoredTextRoundTrip(content: string, ownerKey: string, filename: string, createdAt: string)
    ensures StoredText(MakeRecord(content, ownerKey, filename, createdAt)) == Some(content)
  {
    Utf8.DecodeEncode(content);
  }

  // ---------------------------------------------------------------------------
  // The handler

  /** The answer is 400 exactly when no script could be resolved, and nothing is stored then. */
  lemma BadRequestIffNoContent(store: map<string, Record>, req: Request, id: string, draws: seq<int>,
                               createdAt: string, putSucceeds: bool)
    requires ValidDraws(draws)
    ensures var o := Handle(store, req, id, draws, createdAt, putSucceeds);
      (o.response == Failed(400, NoContentError) <==> Resolve(req) == NoContent) &&
      (Resolve(req) == NoContent ==> o.store == store)
  {
  }

  /** The route succeeds exactly when a script was resolved and the store took the write. */
  lemma SuccessIff(store: map<string, Record>, req: Request, id: string, draws: seq<int>,
                   createdAt: string, putSucceeds: bool)
    requires ValidDraws(draws)
    ensures var o := Handle(store, req, id, draws, createdAt, putSucceeds);
      o.response.Uploaded? <==> Resolve(req).Resolved? && putSucceeds
  {
  }

  /** Every failure answers 400 or 500 and leaves the store as it was. */
  lemma FailureStoresNothing(store: map<string, Record>, req: Request, id: string, draws: seq<int>,
                             createdAt: string, putSucceeds: bool)
    requires ValidDraws(draws)
    ensures var o := Handle(store, req, id, draws, createdAt, putSucceeds);
      o.response.Failed? ==>
        o.store == store &&
        ((o.response.status == 400 && o.response.error == NoContentError) ||
         (o.response.status == 500 && o.response.error == UploadError))
  {
  }

  /**
   * A success writes exactly one entry, at `scripts/<id>/data.json`; every other
   * path keeps its record, and no other path appears.
   */
  lemma SuccessWritesOneRecord(store: map<string, Record>, req: Request, id: string, draws: seq<int>,
                               createdAt: string, putSucceeds: bool)
    requires ValidDraws(draws)
    ensures var o := Handle(store, req, id, draws, createdAt, putSucceeds);
      o.response.Uploaded? ==>
        o.store.Keys == store.Keys + {StoragePath(id)} &&
        forall p :: p in store && p != StoragePath(id) ==> o.store[p] == store[p]
  {
  }

  /**
   * The answer echoes the id, owner key and filename that were written. The
   * key is the one drawn, with the promised shape; the filename is the one
   * resolved from the payload; and the loader line embeds the execute URL of
   * the id.
   */
  lemma SuccessEchoesRecord(store: map<string, Record>, req: Request, id: string, draws: seq<int>,
                            createdAt: string, putSucceeds: bool)
    requires ValidDraws(draws)
    ensures var o := Handle(store, req, id, draws, createdAt, putSucceeds);
      o.response.Uploaded? ==>
        var r := o.response;
        var rec := o.store[StoragePath(r.id)];
        r.id == id && rec.ownerKey == r.ownerKey && rec.filename == r.filename &&
        r.ownerKey == KeyOf(draws) && r.filename == Resolve(req).filename &&
        rec.createdAt == createdAt &&
        |r.ownerKey| == KeyLength && (forall i :: 0 <= i < |r.ownerKey| ==> IsAlphanumeric(r.ownerKey[i])) &&
        r.executeUrl == ExecuteUrl(req.origin, id) &&
        IdOfExecuteUrl(req.origin, r.executeUrl) == Some(id) &&
        UrlOfLoadstring(r.loadstring) == Some(r.executeUrl) &&
        Contains(r.loadstring, r.executeUrl)
  {
    var o := Handle(store, req, id, draws, createdAt, putSucceeds);
    if o.response.Uploaded? {
      ExecuteUrlRoundTrip(req.origin, id);
      LoadstringRoundTrip(o.response.executeUrl);
    }
  }

  /**
   * Two successful uploads whose key draws differ are answered with different
   * owner keys, so no key is handed out for two different draws.
   */
  lemma SuccessKeysFollowDraws(store1: map<string, Record>, req1: Request, id1: string, draws1: seq<int>, createdAt1: string,
                               store2: map<string, Record>, req2: Request, id2: string, draws2: seq<int>, createdAt2: string)
    requires ValidDraws(draws1) && ValidDraws(draws2)
    ensures var o1, o2 := Handle(store1, req1, id1, draws1, createdAt1, true),
                          Handle(store2, req2, id2, draws2, createdAt2, true);
      o1.response.Uploaded? && o2.response.Uploaded? ==>
        (o1.response.ownerKey == o2.response.ownerKey <==> draws1 == draws2)
  {
    var o1 := Handle(store1, req1, id1, draws1, createdAt1, true);
    var o2 := Handle(store2, req2, id2, draws2, createdAt2, true);
    if o1.response.Uploaded? && o2.response.Uploaded? {
      SuccessEchoesRecord(store1, req1, id1, draws1, createdAt1, true);
      SuccessEchoesRecord(store2, req2, id2, draws2, createdAt2, true);
      if o1.response.ownerKey == o2.response.ownerKey {
        KeyDeterminesDraws(draws1, draws2);
      }
    }
  }

  /** After a success the stored record decodes to exactly the script that was resolved from the payload. */
  lemma SuccessStoresScript(store: map<string, Record>, req: Request, id: string, draws: seq<int>,
                            createdAt: string, putSucceeds: bool)
    requires ValidDraws(draws)
    ensures var o := Handle(store, req, id, draws, createdAt, putSucceeds);
      o.response.Uploaded? ==>
        Resolve(req).Resolved? && StoredText(o.store[StoragePath(id)]) == Some(Resolve(req).content)
  {
    var o := Handle(store, req, id, draws, createdAt, putSucceeds);
    if o.response.Uploaded? {
      var res := Resolve(req);
      StoredTextRoundTrip(res.content, KeyOf(draws), res.filename, createdAt);
    }
  }

  /**
   * A JSON upload of `print('hi')` named `a.lua` succeeds: the answer names
   * `a.lua`, carries a 32-character key and a loader line around the execute
   * URL, and the stored record decodes to `print('hi')`.
   */
  lemma ExampleJsonUpload(store: map<string, Record>, origin: string, id: string, draws: seq<int>, createdAt: string)
    requires ValidDraws(draws)
    ensures var req := Request(origin, Some("application/json"), JsonObject(Some("print('hi')"), Some("a.lua")));
      var o := Handle(store, req, id, draws, createdAt, true);
      o.response.Uploaded? && o.response.filename == "a.lua" && |o.response.ownerKey| == 32 &&
      Contains(o.response.loadstring, o.response.executeUrl) &&
      StoredText(o.store[StoragePath(id)]) == Some("print('hi')")
  {
    JsonUploadSucceeds(store, origin, "print('hi')", "a.lua", id, draws, createdAt);
  }

  /**
   * A JSON upload with a non-empty script and filename, sent as
   * `application/json`, succeeds when the store takes the write: the answer
   * names the file, carries a 32-character key and a loader line around the
   * execute URL, and the stored record decodes to the script.
   */
  lemma JsonUploadSucceeds(store: map<string, Record>, origin: string, script: string, filename: string,
                           id: string, draws: seq<int>, createdAt: string)
    requires ValidDraws(draws) && script != "" && filename != ""
    ensures var req := Request(origin, Some("application/json"), JsonObject(Some(script), Some(filename)));
      var o := Handle(store, req, id, draws, createdAt, true);
      o.response.Uploaded? && o.response.filename == filename && |o.response.ownerKey| == 32 &&
      Contains(o.response.loadstring, o.response.executeUrl) &&
      StoredText(o.store[StoragePath(id)]) == Some(script)
  {
    var req := Request(origin, Some("application/json"), JsonObject(Some(script), Some(filename)));
    assert IsJsonRequest(req.contentType) by {
      assert OccursAt("application/json", JsonMediaType, 0);
      ContainsIff("application/json", JsonMediaType);
    }
    assert Resolve(req) == Resolved(script, filename);
    SuccessEchoesRecord(store, req, id, draws, createdAt, true);
    SuccessStoresScript(store, req, id, draws, createdAt, true);
  }

  /** A JSON upload of an empty object is a 400 and stores nothing. */
  lemma ExampleEmptyJsonUpload(store: map<string, Record>, origin: string, id: string, draws: seq<int>, createdAt: string)
    requires ValidDraws(draws)
    ensures var req := Request(origin, Some("application/json"), JsonObject(None, None));
      Handle(store, req, id, draws, createdAt, true) == Outcome(Failed(400, NoContentError), store)
  {
    assert IsJsonRequest(Some("application/json")) by {
      assert OccursAt("application/json", JsonMediaType, 0);
      ContainsIff("application/json", JsonMediaType);
    }
  }

  /** The blob store: a map from path to the record stored there. */
  class BlobStore {
    var objects: map<string, Record>

    constructor (initial: map<string, Record>)
      ensures objects == initial
    {
      objects := initial;
    }

    /** `put(path, record)`: one entry written, every other left alone. */
    method Put(path: string, record: Record)
      modifies this
      ensures objects == old(objects)[path := record]
    {
      objects := objects[path := record];
    }
  }

  /**
   * `POST`: assigns the script and filename branch by branch, draws the key,
   * builds the record, writes it and answers. The Discord notification that
   * follows the write is fire-and-forget and changes nothing here.
   */
  method Post(store: BlobStore, req: Request, id: string, draws: seq<int>, createdAt: string, putSucceeds: bool)
    returns (response: Response)
    requires ValidDraws(draws)
    modifies store
    ensures Outcome(response, store.objects) == Handle(old(store.objects), req, id, draws, createdAt, putSucceeds)
  {
    var scriptContent: string;
    var filename: string;
    var contentType := req.contentType.GetOr("");
    if Contains(contentType, JsonMediaType) {
      if !req.body.JsonObject? {
        return Failed(500, UploadError);
      }
      var body := req.body;
      filename := if IsGiven(body.filename) then body.filename.value else DefaultFilename;
      if !IsGiven(body.script) {
        return Failed(400, NoContentError);
      }
      scriptContent := body.script.value;
    } else {
      if !IsFormMediaType(contentType) || !req.body.Form? {
        return Failed(500, UploadError);
      }
      var form := req.body;
      if form.file.Some? && form.file.value.size > 0 {
        scriptContent := form.file.value.text;
        filename := form.file.value.name;
      } else if IsGiven(form.script) {
        scriptContent := form.script.value;
        filename := if IsGiven(form.filename) then form.filename.value else DefaultFilename;
      } else {
        return Failed(400, NoContentError);
      }
    }

    var ownerKey := Generate(draws);
    var encodedScript := Base64.Encode(Utf8.Encode(scriptContent));
    var metadata := Record(encodedScript, ownerKey, filename, createdAt);

    if !putSucceeds {
      return Failed(500, UploadError);
    }
    store.Put(StoragePath(id), metadata);

    var executeUrl := ExecuteUrl(req.origin, id);
    response := Uploaded(id, ownerKey, filename, Loadstring(executeUrl), executeUrl);
  }
}
