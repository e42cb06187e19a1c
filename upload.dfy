/** The `/parse_doc` handler of `main.py`: filename checks, the page-text
    loop, the mapping from extraction errors to HTTP errors, and the
    success payload.

    The upload's bytes and PyPDF2 are abstracted into what the reader
    yields (`PdfRead`); the service and its transport and decoder are
    parameters, as in LlmService. */
module Upload {
  import opened Wrappers
  import opened Dicts
  import opened JsonValues
  import opened Strings
  import opened LlmUtils
  import opened LlmService

  /** What the handler returns (its dict, serialised as the JSON payload)
      or raises (an HTTPException with its status and detail). */
  datatype HttpResponse = Ok(payload: Json) | HttpException(status: int, detail: string)

  // ---------------------------------------------------------------------
  // Filename checks
  // ---------------------------------------------------------------------

  const MalformedFile: string := "Malformed file uploaded."
  const OnlyPdf: string := "Only PDF files accepted for now!"

  /** The two checks on `file.filename`, None when both pass. */
  function FilenameError(filename: Option<string>): (r: Option<HttpResponse>)
    ensures r.Some? ==> r.value.HttpException? && r.value.status == 400
    ensures r.None? ==> filename.Some? && |filename.value| >= 4
  {
    if filename.None? || filename.value == "" then Some(HttpException(400, MalformedFile))
    else if !EndsWith(Lower(filename.value), ".pdf") then Some(HttpException(400, OnlyPdf))
    else None
  }

  /** A name passes exactly when its last four characters spell ".pdf" in
      any mix of cases. */
  lemma FilenameAccepted(name: string)
    ensures FilenameError(Some(name)).None? <==>
      |name| >= 4 && name[|name| - 4] == '.'
      && name[|name| - 3] in {'p', 'P'} && name[|name| - 2] in {'d', 'D'} && name[|name| - 1] in {'f', 'F'}
  {
    var n := |name|;
    var low := Lower(name);
    if n >= 4 {
      var tail := low[n - 4..];
      assert tail[0] == LowerChar(name[n - 4]) && tail[1] == LowerChar(name[n - 3]);
      assert tail[2] == LowerChar(name[n - 2]) && tail[3] == LowerChar(name[n - 1]);
      assert tail == ".pdf" <==> tail[0] == '.' && tail[1] == 'p' && tail[2] == 'd' && tail[3] == 'f';
    }
  }

  /** Every other name is refused, and a missing name before the suffix is
      looked at. */
  lemma FilenameRejected(filename: Option<string>)
    ensures FilenameError(filename).Some? ==> FilenameError(filename).value.status == 400
    ensures FilenameError(filename) == Some(HttpException(400, MalformedFile)) <==>
      filename.None? || filename.value == ""
    ensures filename.Some? && filename.value != "" && FilenameError(filename).Some? ==>
      FilenameError(filename).value == HttpException(400, OnlyPdf)
  {
  }

  // ---------------------------------------------------------------------
  // Page text
  // ---------------------------------------------------------------------

  const InvalidPdf: string := "File is not a valid PDF or is corrupted."

  /** What `page.extract_text()` does for one page: returns text, returns
      None (or ""), or raises. */
  datatype PageExtract = PageText(text: string) | NoText | ExtractFailed

  /** What `PyPDF2.PdfReader(...)` does with the upload: raises, or yields
      its pages in order. */
  datatype PdfRead = Unreadable | Pages(pages: seq<PageExtract>)

  /** `page.extract_text() or ""`. */
  function PageContribution(p: PageExtract): string
    requires !p.ExtractFailed?
  {
    if p.PageText? then p.text else ""
  }

  /** The text the loop builds over `pages`, None when a page raises. */
  function PagesText(pages: seq<PageExtract>): (r: Option<string>)
    ensures r.Some? ==> forall i :: 0 <= i < |pages| ==> !pages[i].ExtractFailed?
    decreases |pages|
  {
    if pages == [] then Some("")
    else
      var n := |pages| - 1;
      match PagesText(pages[..n])
      case None => None
      case Some(init) => if pages[n].ExtractFailed? then None else Some(init + PageContribution(pages[n]))
  }

  /** Reading fails exactly when some page raises. */
  lemma {:induction false} PagesTextFails(pages: seq<PageExtract>)
    ensures PagesText(pages).None? <==> exists i :: 0 <= i < |pages| && pages[i].ExtractFailed?
  {
    if pages != [] {
      var n := |pages| - 1;
      PagesTextFails(pages[..n]);
      if exists i :: 0 <= i < n && pages[..n][i].ExtractFailed? {
        var i :| 0 <= i < n && pages[..n][i].ExtractFailed?;
        assert pages[i] == pages[..n][i];
      }
      if exists i :: 0 <= i < |pages| && pages[i].ExtractFailed? {
        var i :| 0 <= i < |pages| && pages[i].ExtractFailed?;
        if i < n {
          assert pages[..n][i] == pages[i];
        }
      }
    }
  }

  /** The text of two runs of pages is the text of the first followed by
      the text of the second: each page contributes in order. */
  lemma {:induction false} PagesTextAppend(a: seq<PageExtract>, b: seq<PageExtract>)
    requires PagesText(a).Some? && PagesText(b).Some?
    ensures PagesText(a + b) == Some(PagesText(a).value + PagesText(b).value)
  {
    if b == [] {
      assert a + b == a;
      assert PagesText(a).value + "" == PagesText(a).value;
    } else {
      var n := |b| - 1;
      assert (a + b)[..|a + b| - 1] == a + b[..n];
      assert (a + b)[|a + b| - 1] == b[n];
      assert PagesText(b[..n]).Some?;
      PagesTextAppend(a, b[..n]);
      var x, y := PagesText(a).value, PagesText(b[..n]).value;
      if !b[n].ExtractFailed? {
        assert x + y + PageContribution(b[n]) == x + (y + PageContribution(b[n]));
      }
    }
  }

  /** One page on its own contributes its text, or nothing. */
  lemma PagesTextSingle(p: PageExtract)
    ensures PagesText([p]) == if p.ExtractFailed? then None else Some(PageContribution(p))
  {
    assert [p][..0] == [];
    if !p.ExtractFailed? {
      assert "" + PageContribution(p) == PageContribution(p);
    }
  }

  /** The reader and the loop inside the first try. */
  function DocumentText(read: PdfRead): (r: Result<string, HttpResponse>)
    ensures r.Failure? ==> r.error == HttpException(400, InvalidPdf)
    ensures read.Unreadable? ==> r.Failure?
  {
    match read
    case Unreadable => Failure(HttpException(400, InvalidPdf))
    case Pages(pages) =>
      match PagesText(pages)
      case None => Failure(HttpException(400, InvalidPdf))
      case Some(text) => Success(text)
  }

  /** `text = ""`, then `text += page.extract_text() or ""` for each page. */
  method ReadText(read: PdfRead) returns (r: Result<string, HttpResponse>)
    ensures r == DocumentText(read)
  {
    if read.Unreadable? {
      return Failure(HttpException(400, InvalidPdf));
    }
    var pages := read.pages;
    var text := "";
    var i := 0;
    while i < |pages|
      invariant 0 <= i <= |pages|
      invariant PagesText(pages[..i]) == Some(text)
    {
      assert pages[..i + 1][..i] == pages[..i];
      if pages[i].ExtractFailed? {
        PagesTextFails(pages);
        return Failure(HttpException(400, InvalidPdf));
      }
      text := text + PageContribution(pages[i]);
      i := i + 1;
    }
    assert pages[..i] == pages;
    r := Success(text);
  }

  // ---------------------------------------------------------------------
  // Errors from the extraction
  // ---------------------------------------------------------------------

  const UpstreamPrefix: string := "LLM service returned an error: "
  const ConnectPrefix: string := "Could not connect to LLM service: "
  const UnexpectedErrorPrefix: string := "An unexpected error occurred: "

  /** The three `except` clauses around the extraction. */
  function ErrorResponse(e: ExtractionError): (r: HttpResponse)
    ensures r.HttpException?
    ensures r.status == (if e.HttpStatusError? then e.status else if e.RequestError? then 503 else 500)
    ensures e.HttpStatusError? ==> r.detail == UpstreamPrefix + e.text
    ensures e.RequestError? ==> r.detail == ConnectPrefix + e.reason
    ensures e.Raised? ==> r.detail == UnexpectedErrorPrefix + e.message
  {
    match e
    case HttpStatusError(status, text) => HttpException(status, UpstreamPrefix + text)
    case RequestError(reason) => HttpException(503, ConnectPrefix + reason)
    case Raised(_, message) => HttpException(500, UnexpectedErrorPrefix + message)
  }

  /** The client can tell the three kinds of failure apart from the detail,
      and recovers an upstream error's status and body, or a connection
      error's message, exactly. */
  lemma ErrorResponseInjective(e1: ExtractionError, e2: ExtractionError)
    requires ErrorResponse(e1) == ErrorResponse(e2)
    ensures e1.HttpStatusError? <==> e2.HttpStatusError?
    ensures e1.RequestError? <==> e2.RequestError?
    ensures !e1.Raised? ==> e1 == e2
    ensures e1.Raised? ==> e2.Raised? && e1.message == e2.message
  {
    var d1, d2 := ErrorResponse(e1).detail, ErrorResponse(e2).detail;
    assert d1[0] == match e1 { case HttpStatusError(_, _) => 'L' case RequestError(_) => 'C' case Raised(_, _) => 'A' };
    assert d2[0] == match e2 { case HttpStatusError(_, _) => 'L' case RequestError(_) => 'C' case Raised(_, _) => 'A' };
    match e1
    case HttpStatusError(_, t) =>
      assert t == d1[|UpstreamPrefix|..];
    case RequestError(m) =>
      assert m == d1[|ConnectPrefix|..];
    case Raised(_, m) =>
      assert m == d1[|UnexpectedErrorPrefix|..];
  }

  // ---------------------------------------------------------------------
  // The extraction target and the payload
  // ---------------------------------------------------------------------

  /** A decoded `DocumentExtraction`. */
  datatype DocumentExtraction = DocumentExtraction(
    introduction: string,
    architectureOverview: string,
    communicationProtocols: seq<string>)

  const ClassName: string := "DocumentExtraction"
  const Protocols: seq<string> := ["gRPC", "https", "REST/JSON"]

  /** The fields of `DocumentExtraction`, in declaration order. */
  function DocumentExtractionFields(): (r: seq<Field>)
    ensures Names(r) == ["introduction", "architecture_overview", "communication_protocols"]
    ensures r[0].kind == Str && r[0].description == "An introduction extracted from the document"
    ensures r[1].kind == Str && r[1].description == "The architecture overview"
    ensures r[2].kind.ListOf? && r[2].kind.item == Literal(Protocols) && r[2].description == ""
  {
    [ Field("introduction", Str, "An introduction extracted from the document"),
      Field("architecture_overview", Str, "The architecture overview"),
      Field("communication_protocols",
            ListOf(Literal(Protocols), "typing.List[typing.Literal['gRPC', 'https', 'REST/JSON']]"), "")]
  }

  lemma DocumentExtractionDistinct()
    ensures DistinctNames(DocumentExtractionFields())
  {
    assert Names(DocumentExtractionFields()) == ["introduction", "architecture_overview", "communication_protocols"];
  }

  /** `to_dict`: each struct field by name, in field order. */
  function ToDict(d: DocumentExtraction): (r: Dict<Json>)
    ensures Keys(r) == ["introduction", "architecture_overview", "communication_protocols"]
  {
    [ ("introduction", JString(d.introduction)),
      ("architecture_overview", JString(d.architectureOverview)),
      ("communication_protocols", JArray(JStrings(d.communicationProtocols)))]
  }

  /** The payload's keys are exactly the field names, in field order, and
      so exactly the tool's `required` list. */
  lemma ToDictMatchesTool(d: DocumentExtraction, doc: Option<string>)
    ensures Keys(ToDict(d)) == Names(DocumentExtractionFields())
    ensures At(ToolSchema(DocumentExtractionFields(), ClassName, doc), ["function", "parameters", "required"])
         == Some(JArray(JStrings(Keys(ToDict(d)))))
  {
    var fields := DocumentExtractionFields();
    assert Names(fields) == ["introduction", "architecture_overview", "communication_protocols"];
    assert Keys(ToDict(d)) == Names(fields);
    ToolSchemaShape(fields, ClassName, doc);
  }

  /** Each key of the payload holds its field's value. */
  lemma ToDictValues(d: DocumentExtraction)
    ensures Lookup(ToDict(d), "introduction") == Some(JString(d.introduction))
    ensures Lookup(ToDict(d), "architecture_overview") == Some(JString(d.architectureOverview))
    ensures Lookup(ToDict(d), "communication_protocols") == Some(JArray(JStrings(d.communicationProtocols)))
  {
    assert Keys(ToDict(d)) == ["introduction", "architecture_overview", "communication_protocols"];
    LookupDistinct(ToDict(d), 0);
    LookupDistinct(ToDict(d), 1);
    LookupDistinct(ToDict(d), 2);
  }

  /** `{"parsed_data": document_extraction.to_dict()}`. */
  function SuccessPayload(d: DocumentExtraction): (r: Json)
    ensures r.JObject? && Keys(r.members) == ["parsed_data"]
  {
    JObject([("parsed_data", JObject(ToDict(d)))])
  }

  // ---------------------------------------------------------------------
  // parse_doc
  // ---------------------------------------------------------------------

  /** What `parse_doc` returns or raises. `doc` is what `inspect.getdoc`
      gives for the class, `send` and `decode` the transport and decoder
      of the module-level service. */
  function ParseDocOf(model: string, headers: Dict<string>, filename: Option<string>, read: PdfRead,
                      doc: Option<string>, send: Request -> HttpOutcome,
                      decode: Json -> DecodeOutcome<DocumentExtraction>): (r: HttpResponse)
    ensures r.HttpException? ==> !IsSuccess(r.status)
  {
    match FilenameError(filename)
    case Some(e) => e
    case None =>
      match DocumentText(read)
      case Failure(e) => e
      case Success(text) =>
        var request := RequestFor(model, headers, ToolSchema(DocumentExtractionFields(), ClassName, doc), text);
        match ExtractionOf(send(request), decode)
        case Success(d) => Ok(SuccessPayload(d))
        case Failure(e) => ErrorResponse(e)
  }

  /** The module-level `llmService`: model "gpt-4o-mini", the key read from
      `OPENAI_API_KEY` (passed in as `apiKey`), and the default
      temperature. Without a key the module fails to import. */
  method ModuleService(apiKey: Option<string>) returns (r: Result<LLMService, string>)
    ensures r.Failure? <==> apiKey.None? || apiKey.value == ""
    ensures r.Success? ==> && fresh(r.value)
                           && r.value.model == "gpt-4o-mini"
                           && r.value.headers == Headers(apiKey.value)
                           && r.value.temperature == 0.7
  {
    r := LLMService.Create("gpt-4o-mini", apiKey, None);
  }

  /** `parse_doc`, run against the service `svc`. */
  method ParseDoc(svc: LLMService, filename: Option<string>, read: PdfRead, doc: Option<string>,
                  send: Request -> HttpOutcome, decode: Json -> DecodeOutcome<DocumentExtraction>)
    returns (resp: HttpResponse)
    ensures resp == ParseDocOf(svc.model, svc.headers, filename, read, doc, send, decode)
  {
    var rejected := FilenameError(filename);
    if rejected.Some? {
      return rejected.value;
    }
    var text := ReadText(read);
    if text.Failure? {
      return text.error;
    }
    var extracted := svc.Extraction(text.value, DocumentExtractionFields(), ClassName, doc, send, decode);
    if extracted.Failure? {
      return ErrorResponse(extracted.error);
    }
    resp := Ok(SuccessPayload(extracted.value));
  }

  /** A refused filename is answered before the upload is read or the
      service is called: the response depends on nothing else. */
  lemma RejectedBeforeReading(model: string, headers: Dict<string>, filename: Option<string>,
                              read1: PdfRead, read2: PdfRead, doc: Option<string>,
                              send1: Request -> HttpOutcome, send2: Request -> HttpOutcome,
                              decode: Json -> DecodeOutcome<DocumentExtraction>)
    requires FilenameError(filename).Some?
    ensures ParseDocOf(model, headers, filename, read1, doc, send1, decode)
         == ParseDocOf(model, headers, filename, read2, doc, send2, decode)
         == FilenameError(filename).value
  {
  }

  /** The handler answers 200 exactly when the name is accepted, every page
      reads, and the extraction succeeds; every other answer is an error
      status: 400 for the upload, the upstream status, 503 or 500. */
  lemma ParseDocOutcomes(model: string, headers: Dict<string>, filename: Option<string>, read: PdfRead,
                         doc: Option<string>, send: Request -> HttpOutcome,
                         decode: Json -> DecodeOutcome<DocumentExtraction>)
    ensures var resp := ParseDocOf(model, headers, filename, read, doc, send, decode);
      && (resp.Ok? <==>
            && FilenameError(filename).None? && DocumentText(read).Success?
            && ExtractionOf(send(RequestFor(model, headers, ToolSchema(DocumentExtractionFields(), ClassName, doc),
                                            DocumentText(read).value)), decode).Success?)
      && (resp.HttpException? && resp.status == 400 ==>
            resp.detail in {MalformedFile, OnlyPdf, InvalidPdf} || StartsWith(resp.detail, UpstreamPrefix))
      && (resp.HttpException? && resp.status != 400 ==>
            StartsWith(resp.detail, UpstreamPrefix) || resp.status in {500, 503})
  {
    var resp := ParseDocOf(model, headers, filename, read, doc, send, decode);
    if FilenameError(filename).None? && DocumentText(read).Success? {
      var request := RequestFor(model, headers, ToolSchema(DocumentExtractionFields(), ClassName, doc),
                                DocumentText(read).value);
      var r := ExtractionOf(send(request), decode);
      if r.Failure? {
        var e := r.error;
        var d := ErrorResponse(e).detail;
        match e
        case HttpStatusError(_, t) =>
          assert d == UpstreamPrefix + t;
          assert d[..|UpstreamPrefix|] == UpstreamPrefix;
        case RequestError(_) =>
        case Raised(_, _) =>
      }
    }
  }

  lemma ParseDocAccepted(model: string, headers: Dict<string>, filename: Option<string>, read: PdfRead,
                         doc: Option<string>, send: Request -> HttpOutcome,
                         decode: Json -> DecodeOutcome<DocumentExtraction>, text: string)
    requires FilenameError(filename).None? && DocumentText(read) == Success(text)
    ensures ParseDocOf(model, headers, filename, read, doc, send, decode) ==
      match ExtractionOf(send(RequestFor(model, headers, ToolSchema(DocumentExtractionFields(), ClassName, doc), text)), decode)
      case Success(d) => Ok(SuccessPayload(d))
      case Failure(e) => ErrorResponse(e)
  {
  }

  /** The upload test: a PDF named "test.pdf" whose page holds `text`, and a
      200 answer whose tool call carries `arguments`, give the decoded
      document under "parsed_data". */
  lemma MockedUpload(model: string, headers: Dict<string>, text: string, doc: Option<string>,
                     send: Request -> HttpOutcome, answer: string, arguments: string,
                     decode: Json -> DecodeOutcome<DocumentExtraction>, d: DocumentExtraction)
    requires forall request :: send(request) == Responded(200, answer, Success(MockResponse(JString(arguments))))
    requires decode(JString(arguments)) == Decoded(d)
    ensures ParseDocOf(model, headers, Some("test.pdf"), Pages([PageText(text)]), doc, send, decode)
         == Ok(SuccessPayload(d))
  {
    assert FilenameError(Some("test.pdf")).None? by {
      FilenameAccepted("test.pdf");
    }
    assert DocumentText(Pages([PageText(text)])) == Success(text) by {
      PagesTextSingle(PageText(text));
    }
    MockedExtraction(answer, arguments, decode, d);
    ParseDocAccepted(model, headers, Some("test.pdf"), Pages([PageText(text)]), doc, send, decode, text);
  }

  /** What the test reads back from the payload. */
  lemma PayloadFields(d: DocumentExtraction)
    ensures At(SuccessPayload(d), ["parsed_data", "introduction"]) == Some(JString(d.introduction))
    ensures At(SuccessPayload(d), ["parsed_data", "communication_protocols"])
         == Some(JArray(JStrings(d.communicationProtocols)))
  {
    var p := SuccessPayload(d);
    LookupDistinct(p.members, 0);
    LookupDistinct(ToDict(d), 0);
    LookupDistinct(ToDict(d), 1);
    LookupDistinct(ToDict(d), 2);
    assert At(p, ["parsed_data", "introduction"]) == At(JObject(ToDict(d)), ["introduction"]);
    assert At(p, ["parsed_data", "communication_protocols"]) == At(JObject(ToDict(d)), ["communication_protocols"]);
  }
}
