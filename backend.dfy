/**
 * The DocuWhiZ backend: a process-wide session store from file id to the text
 * extracted from an uploaded PDF, the upload pipeline that fills it and the
 * chat pipeline that grounds a Gemini prompt on it.
 *
 * The file-system steps, the `pdftotext` extractor and the Gemini HTTP call are
 * not performed: each appears as the outcome it produced (`UploadIO`, a
 * decoded `ApiReply`) so that every branch of the handlers is reachable.
 * The mutex around the map is not modelled: each guarded read or write is one
 * step of a method.
 */
module Backend {
  import opened Wrappers
  import Paths

  const StatusOK: int := 200
  const StatusBadRequest: int := 400
  const StatusInternalServerError: int := 500

  /** One stored document. */
  datatype SessionData = SessionData(pdfText: string)

  /** What `pdftotext` produced for the saved file. */
  datatype Extraction = Extracted(text: string) | ExtractionFailed

  /** The outcome of each external step of an upload, in the order they run. */
  datatype UploadIO = UploadIO(mkdirOk: bool, saveOk: bool, extraction: Extraction, removeOk: bool)

  /** The JSON reply of the upload endpoint. */
  datatype UploadResponse =
    | Uploaded(status: int, message: string, fileId: string)
    | UploadRejected(status: int, error: string)

  const UploadedMessage: string := "PDF uploaded and text extracted"
  const FileRequired: string := "PDF file required"
  const MkdirFailed: string := "Failed to create uploads directory"
  const SaveFailed: string := "Failed to save PDF"
  const ExtractFailed: string := "Failed to extract PDF text"

  /** The JSON body of a chat request, once bound. */
  datatype ChatPayload = ChatPayload(fileId: string, message: string)

  /** The JSON reply of the chat endpoint. */
  datatype ChatResponse =
    | Answered(status: int, response: string)
    | ChatRejected(status: int, error: string, details: Option<string>)

  const InvalidJson: string := "Invalid JSON"
  const TextNotFound: string := "PDF text not found for session"
  const GeminiFailed: string := "Gemini API call failed"

  // ---------------------------------------------------------------------------
  // The decoded shape of a Gemini generateContent reply.

  datatype Part = Part(text: string)
  datatype Content = Content(parts: seq<Part>)
  datatype Candidate = Candidate(content: Content)
  datatype GenerateResponse = GenerateResponse(candidates: seq<Candidate>)

  /**
   * What the HTTP POST to Gemini gave back: a transport failure, or a status,
   * the raw body and the result of decoding that body as a GenerateResponse.
   */
  datatype ApiReply =
    | PostFailed(reason: string)
    | HttpReply(statusCode: int, body: string, decoded: Result<GenerateResponse, string>)

  datatype GeminiError =
    | RequestError(reason: string)
    | StatusError(body: string)
    | ParseError(reason: string)
    | NoValidResponse

  const RequestFailedPrefix: string := "request failed: "
  const GeminiErrorPrefix: string := "Gemini error: "
  const ParseFailedPrefix: string := "failed to parse response: "
  const NoValidResponseText: string := "no valid response from Gemini"

  /** The text of each Gemini error, as `err.Error()` prints it. */
  function ErrorText(e: GeminiError): (r: string)
    ensures e.RequestError? ==> |e.reason| < |r| && r[|r| - |e.reason|..] == e.reason
    ensures e.StatusError? ==> |e.body| < |r| && r[|r| - |e.body|..] == e.body
    ensures e.ParseError? ==> |e.reason| < |r| && r[|r| - |e.reason|..] == e.reason
  {
    match e
    case RequestError(reason) => RequestFailedPrefix + reason
    case StatusError(body) => GeminiErrorPrefix + body
    case ParseError(reason) => ParseFailedPrefix + reason
    case NoValidResponse => NoValidResponseText
  }

  /** The reply has a first candidate and that candidate has a first part. */
  predicate HasAnswer(g: GenerateResponse) {
    |g.candidates| > 0 && |g.candidates[0].content.parts| > 0
  }

  /**
   * The checks `callGeminiAPI` runs on the reply: a transport failure, a
   * non-200 status, an undecodable body and an empty first candidate are
   * errors; otherwise the answer is the first part of the first candidate.
   */
  function CallGemini(reply: ApiReply): (r: Result<string, GeminiError>)
    ensures r.Ok? <==> reply.HttpReply? && reply.statusCode == StatusOK
                       && reply.decoded.Ok? && HasAnswer(reply.decoded.value)
    ensures r.Ok? ==> r.value == reply.decoded.value.candidates[0].content.parts[0].text
    ensures reply.PostFailed? ==> r == Err(RequestError(reply.reason))
    ensures reply.HttpReply? && reply.statusCode != StatusOK ==> r == Err(StatusError(reply.body))
    ensures reply.HttpReply? && reply.statusCode == StatusOK && reply.decoded.Err? ==>
              r == Err(ParseError(reply.decoded.error))
    ensures reply.HttpReply? && reply.statusCode == StatusOK && reply.decoded.Ok? && !HasAnswer(reply.decoded.value) ==>
              r == Err(NoValidResponse)
  {
    match reply
    case PostFailed(reason) => Err(RequestError(reason))
    case HttpReply(status, body, decoded) =>
      if status != StatusOK then Err(StatusError(body))
      else if decoded.Err? then Err(ParseError(decoded.error))
      else if !HasAnswer(decoded.value) then Err(NoValidResponse)
      else Ok(decoded.value.candidates[0].content.parts[0].text)
  }

  // ---------------------------------------------------------------------------
  // Prompt construction.

  const PromptHeader: string := "Answer based on this PDF:\n\n"
  const QuestionMarker: string := "\n\nQuestion: "

  /**
   * The grounded prompt: the fixed instruction, the whole document text, the
   * question marker and the user's message, in that order.
   */
  function Prompt(text: string, message: string): (p: string)
    ensures |p| == |PromptHeader| + |text| + |QuestionMarker| + |message|
    ensures p[..|PromptHeader|] == PromptHeader
    ensures p[|PromptHeader|..|PromptHeader| + |text|] == text
    ensures p[|PromptHeader| + |text|..|p| - |message|] == QuestionMarker
    ensures p[|p| - |message|..] == message
  {
    PromptHeader + text + QuestionMarker + message
  }

  /**
   * The text the chat handler finds for an id: none when the id was never
   * stored, and none when the stored text is empty.
   */
  function Lookup(sessions: map<string, SessionData>, fileId: string): (r: Option<string>)
    ensures r.Some? <==> fileId in sessions && sessions[fileId].pdfText != ""
    ensures r.Some? ==> r.value == sessions[fileId].pdfText && r.value != ""
  {
    if fileId in sessions && sessions[fileId].pdfText != "" then Some(sessions[fileId].pdfText) else None
  }

  // ---------------------------------------------------------------------------
  // The server state and its two handlers.

  class Server {
    /** The `sessions` map: file id to stored document. */
    var sessions: map<string, SessionData>
    /** The paths of the files currently present in the uploads directory. */
    var uploads: set<string>

    /** A freshly started process: no sessions, and `files` already on disk. */
    constructor (files: set<string>)
      ensures sessions == map[] && uploads == files
    {
      sessions := map[];
      uploads := files;
    }

    /**
     * `uploadPDFHandler`. `formFile` is the multipart file's name, or None when
     * the request has no `file` part.
     */
    method Upload(formFile: Option<string>, io: UploadIO) returns (r: UploadResponse)
      modifies this
      ensures formFile.None? ==>
                r == UploadRejected(StatusBadRequest, FileRequired)
                && sessions == old(sessions) && uploads == old(uploads)
      ensures formFile.Some? && !io.mkdirOk ==>
                r == UploadRejected(StatusInternalServerError, MkdirFailed)
                && sessions == old(sessions) && uploads == old(uploads)
      ensures formFile.Some? && io.mkdirOk && !io.saveOk ==>
                r == UploadRejected(StatusInternalServerError, SaveFailed)
                && sessions == old(sessions) && uploads == old(uploads)
      // an extraction failure returns before the saved file is removed
      ensures formFile.Some? && io.mkdirOk && io.saveOk && io.extraction.ExtractionFailed? ==>
                r == UploadRejected(StatusInternalServerError, ExtractFailed)
                && sessions == old(sessions)
                && uploads == old(uploads) + {Paths.SavePath(Paths.Base(formFile.value))}
      // on success the text is stored, even when it is empty, and a failed
      // removal leaves the saved file behind without failing the upload
      ensures formFile.Some? && io.mkdirOk && io.saveOk && io.extraction.Extracted? ==>
                var name := Paths.Base(formFile.value);
                var path := Paths.SavePath(name);
                && r == Uploaded(StatusOK, UploadedMessage, name)
                && sessions == old(sessions)[name := SessionData(io.extraction.text)]
                && uploads == (if io.removeOk then old(uploads) - {path} else old(uploads) + {path})
    {
      if formFile.None? {
        return UploadRejected(StatusBadRequest, FileRequired);
      }
      if !io.mkdirOk {
        return UploadRejected(StatusInternalServerError, MkdirFailed);
      }
      var filename := Paths.Base(formFile.value);
      var savePath := Paths.SavePath(filename);
      if !io.saveOk {
        return UploadRejected(StatusInternalServerError, SaveFailed);
      }
      uploads := uploads + {savePath};
      if io.extraction.ExtractionFailed? {
        return UploadRejected(StatusInternalServerError, ExtractFailed);
      }
      var text := io.extraction.text;
      if io.removeOk {
        uploads := uploads - {savePath};
      }
      sessions := sessions[filename := SessionData(text)];
      r := Uploaded(StatusOK, UploadedMessage, filename);
    }

    /**
     * `handleGeminiChat`. `payload` is None when the body is not valid JSON;
     * `client` is the Gemini service, from prompt to reply. `sent` is the
     * prompt handed to the client, None when it was not called. The method
     * has no modifies clause: chat never changes the store.
     */
    method Chat(payload: Option<ChatPayload>, client: string -> ApiReply) returns (r: ChatResponse, sent: Option<string>)
      ensures payload.None? ==> r == ChatRejected(StatusBadRequest, InvalidJson, None) && sent == None
      ensures payload.Some? && Lookup(sessions, payload.value.fileId).None? ==>
                r == ChatRejected(StatusBadRequest, TextNotFound, None) && sent == None
      // the client is called exactly when the id has non-empty text, and with
      // the prompt grounded on that text
      ensures sent.Some? <==> payload.Some? && Lookup(sessions, payload.value.fileId).Some?
      ensures sent.Some? ==>
                var text := sessions[payload.value.fileId].pdfText;
                && text != ""
                && sent.value == Prompt(text, payload.value.message)
                && r == match CallGemini(client(sent.value))
                        case Ok(answer) => Answered(StatusOK, answer)
                        case Err(e) => ChatRejected(StatusInternalServerError, GeminiFailed, Some(ErrorText(e)))
    {
      if payload.None? {
        return ChatRejected(StatusBadRequest, InvalidJson, None), None;
      }
      var found := Lookup(sessions, payload.value.fileId);
      if found.None? {
        return ChatRejected(StatusBadRequest, TextNotFound, None), None;
      }
      var prompt := Prompt(found.value, payload.value.message);
      sent := Some(prompt);
      var answer := CallGemini(client(prompt));
      match answer
      case Ok(a) => r := Answered(StatusOK, a);
      case Err(e) => r := ChatRejected(StatusInternalServerError, GeminiFailed, Some(ErrorText(e)));
    }
  }

  // ---------------------------------------------------------------------------
  // Properties.

  /**
   * The store as the two handlers use it: after text is stored under `id`,
   * chat finds exactly that text (nothing when it is empty), and every other
   * id finds what it found before.
   */
  lemma StoreThenLookup(sessions: map<string, SessionData>, id: string, text: string, other: string)
    ensures Lookup(sessions[id := SessionData(text)], id) == if text == "" then None else Some(text)
    ensures other != id ==> Lookup(sessions[id := SessionData(text)], other) == Lookup(sessions, other)
  {
  }

  /**
   * Each Gemini error prints differently, so the `details` of a failed chat
   * tell the error apart.
   */
  lemma ErrorTextInjective(e1: GeminiError, e2: GeminiError)
    requires ErrorText(e1) == ErrorText(e2)
    ensures e1 == e2
  {
    var t1, t2 := ErrorText(e1), ErrorText(e2);
    assert t1[0] == t2[0];
    match e1
    case RequestError(a) =>
      assert e2.RequestError?;
      assert a == t1[|RequestFailedPrefix|..] == t2[|RequestFailedPrefix|..] == e2.reason;
    case StatusError(a) =>
      assert e2.StatusError?;
      assert a == t1[|GeminiErrorPrefix|..] == t2[|GeminiErrorPrefix|..] == e2.body;
    case ParseError(a) =>
      assert e2.ParseError?;
      assert a == t1[|ParseFailedPrefix|..] == t2[|ParseFailedPrefix|..] == e2.reason;
    case NoValidResponse =>
      assert e2.NoValidResponse?;
  }

  /**
   * With the message fixed, the prompt determines the document text; with
   * the text fixed, it determines the message.
   */
  lemma PromptInjective(t1: string, m1: string, t2: string, m2: string)
    requires Prompt(t1, m1) == Prompt(t2, m2)
    requires |t1| == |t2| || |m1| == |m2|
    ensures t1 == t2 && m1 == m2
  {
    var p := Prompt(t1, m1);
    assert |t1| == |t2| && |m1| == |m2|;
    assert t1 == p[|PromptHeader|..|PromptHeader| + |t1|] == t2;
    assert m1 == p[|p| - |m1|..] == m2;
  }

  /** Only the first candidate is consulted: later candidates never matter. */
  lemma FirstCandidateDecides(status: int, body: string, first: Candidate, rest1: seq<Candidate>, rest2: seq<Candidate>)
    ensures CallGemini(HttpReply(status, body, Ok(GenerateResponse([first] + rest1))))
         == CallGemini(HttpReply(status, body, Ok(GenerateResponse([first] + rest2))))
  {
  }

  /** A successful reply whose first candidate starts with `answer` yields `answer`. */
  lemma AnswerRoundTrip(body: string, answer: string, more: seq<Part>, others: seq<Candidate>)
    ensures CallGemini(HttpReply(StatusOK, body, Ok(GenerateResponse([Candidate(Content([Part(answer)] + more))] + others)))) == Ok(answer)
  {
  }

  /** The reply the scenarios' client gives: one candidate, one part. */
  function Reply(answer: string): (r: ApiReply)
    ensures CallGemini(r) == Ok(answer)
  {
    HttpReply(StatusOK, "", Ok(GenerateResponse([Candidate(Content([Part(answer)]))])))
  }

  /**
   * Upload a document whose extracted text is `text`, then ask about the
   * returned id: the client sees a prompt holding that text and the question,
   * and its answer comes back verbatim.
   */
  method UploadThenChat(filename: string, text: string, question: string, answer: string)
    returns (up: UploadResponse, prompt: Option<string>, reply: ChatResponse)
    requires text != ""
    ensures up == Uploaded(StatusOK, UploadedMessage, Paths.Base(filename))
    ensures prompt == Some(Prompt(text, question))
    ensures reply == Answered(StatusOK, answer)
  {
    var server := new Server({});
    up := server.Upload(Some(filename), UploadIO(true, true, Extracted(text), true));
    reply, prompt := server.Chat(Some(ChatPayload(up.fileId, question)), _ => Reply(answer));
  }

  /**
   * Two uploads under the same base name: the second replaces the first
   * wholesale, so chat grounds on the second text only.
   */
  method ReuploadThenChat(first: string, second: string, v1: string, v2: string, question: string)
    returns (id: string, prompt: Option<string>)
    requires Paths.Base(first) == Paths.Base(second)
    requires v2 != ""
    ensures id == Paths.Base(second)
    ensures prompt == Some(Prompt(v2, question))
  {
    var server := new Server({});
    var up1 := server.Upload(Some(first), UploadIO(true, true, Extracted(v1), true));
    var up2 := server.Upload(Some(second), UploadIO(true, true, Extracted(v2), true));
    id := up2.fileId;
    var reply;
    reply, prompt := server.Chat(Some(ChatPayload(id, question)), _ => Reply("ok"));
  }

  /**
   * An upload whose extracted text is empty succeeds and stores the empty
   * text, yet a chat about it is refused as if nothing had been uploaded.
   */
  method EmptyTextUploadThenChat(filename: string, question: string)
    returns (up: UploadResponse, prompt: Option<string>, reply: ChatResponse)
    ensures up.Uploaded?
    ensures reply == ChatRejected(StatusBadRequest, TextNotFound, None) && prompt == None
  {
    var server := new Server({});
    up := server.Upload(Some(filename), UploadIO(true, true, Extracted(""), true));
    assert server.sessions[up.fileId] == SessionData("");
    reply, prompt := server.Chat(Some(ChatPayload(up.fileId, question)), _ => Reply("unused"));
  }

  /** A chat before any upload is refused and never reaches the client. */
  method ChatBeforeUpload(fileId: string, question: string) returns (prompt: Option<string>, reply: ChatResponse)
    ensures reply == ChatRejected(StatusBadRequest, TextNotFound, None) && prompt == None
  {
    var server := new Server({});
    reply, prompt := server.Chat(Some(ChatPayload(fileId, question)), _ => Reply("unused"));
  }

  /**
   * A failed extraction stores nothing and leaves the saved file in the
   * uploads directory.
   */
  method ExtractionFailureLeavesFile(filename: string) returns (up: UploadResponse, stored: bool, leftOnDisk: bool)
    ensures up == UploadRejected(StatusInternalServerError, ExtractFailed)
    ensures !stored && leftOnDisk
  {
    var server := new Server({});
    up := server.Upload(Some(filename), UploadIO(true, true, ExtractionFailed, true));
    stored := server.sessions != map[];
    leftOnDisk := Paths.SavePath(Paths.Base(filename)) in server.uploads;
  }
}
