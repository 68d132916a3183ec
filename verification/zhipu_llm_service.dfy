/**
 * The client of the hosted chat model: it assembles the outgoing message list,
 * derives the token claims from the API key, and turns the server-sent-event
 * lines of the reply into answer chunks that are forwarded to the emitter and
 * accumulated into the full answer.
 */
module ZhipuLlm {
  import opened Wrappers
  import opened JavaText
  import opened SeqUtil
  import opened Sse

  // ---------------------------------------------------------------------------
  // Messages and request
  // ---------------------------------------------------------------------------

  datatype Role = UserRole | AssistantRole

  /** One {role, content} entry of the conversation sent to the model. */
  datatype Message = Message(role: Role, content: string)

  /** The message list of a request: the context (none when null), then the question as a user turn. */
  function OutboundMessages(context: Option<seq<Message>>, question: string): (r: seq<Message>)
    ensures |r| >= 1 && r[|r| - 1] == Message(UserRole, question)
    ensures context.None? ==> r == [Message(UserRole, question)]
    ensures context.Some? ==> |r| == |context.value| + 1 && r[..|context.value|] == context.value
  {
    (if context.None? then [] else context.value) + [Message(UserRole, question)]
  }

  /** The model every request names. */
  const Model: string := "glm-4"

  /** How long a token stays valid, in milliseconds (one hour). */
  const TokenLifetime: int := 3600 * 1000

  /** The header and payload claims of the signed token (the signature itself is not modelled). */
  datatype Claims = Claims(alg: string, signType: string, apiKeyId: string, secret: string, exp: int, timestamp: int)

  /** The body of the streaming completion request. */
  datatype ChatRequest = ChatRequest(model: string, messages: seq<Message>, stream: bool, claims: Claims)

  /**
   * generateToken(apiKey, 3600 * 1000) at clock time now: the key must split
   * on "." into exactly two parts, the id and the secret; anything else is
   * rejected.
   */
  function GenerateToken(apiKey: string, now: int): (r: Result<Claims, Cause>)
    ensures r.Success? <==> |JavaSplit(apiKey, '.')| == 2
    ensures r.Failure? ==> r.error == InvalidApiKey
    ensures r.Success? ==>
              && r.value.alg == "HS256" && r.value.signType == "SIGN"
              && r.value.exp == now + TokenLifetime && r.value.timestamp == now
              && '.' !in r.value.apiKeyId && '.' !in r.value.secret && r.value.secret != ""
              && |apiKey| >= |r.value.apiKeyId| + 1 + |r.value.secret|
              && apiKey == r.value.apiKeyId + "." + r.value.secret
                           + Repeat('.', |apiKey| - |r.value.apiKeyId| - 1 - |r.value.secret|)
  {
    var parts := JavaSplit(apiKey, '.');
    if |parts| != 2 then Failure(InvalidApiKey)
    else
      JavaSplitTwoPiecesShape(apiKey, '.');
      Success(Claims("HS256", "SIGN", parts[0], parts[1], now + TokenLifetime, now))
  }

  /**
   * Every key made of an id, ".", a non-empty secret and any number of
   * trailing dots is accepted, with exactly that id and secret.
   */
  lemma KeyWithTrailingDotsAccepted(id: string, secret: string, dots: nat, now: int)
    requires '.' !in id && '.' !in secret && secret != ""
    ensures GenerateToken(id + "." + secret + Repeat('.', dots), now)
              == Success(Claims("HS256", "SIGN", id, secret, now + TokenLifetime, now))
  {
    JavaSplitOfTwoPieces(id, secret, dots, '.');
  }

  /** "id.secret." is accepted: the empty part after the trailing dot is dropped. */
  lemma TrailingDotKeyAccepted(now: int)
    ensures GenerateToken("id.secret.", now) == Success(Claims("HS256", "SIGN", "id", "secret", now + TokenLifetime, now))
  {
    KeyWithTrailingDotsAccepted("id", "secret", 1, now);
    assert "id" + "." + "secret" + Repeat('.', 1) == "id.secret.";
  }

  /** "id." is rejected: dropping the trailing empty part leaves a single part. */
  lemma MissingSecretRejected(now: int)
    ensures GenerateToken("id.", now) == Failure(InvalidApiKey)
  {
    assert "id." == "id" + ".";
    SplitAtPlainPrefix("id", ".", '.');
    assert "."[1..] == "";
    assert SplitAt(".", '.') == ["", ""];
    assert "id" + "" == "id";
    assert SplitAt("id" + ".", '.') == ["id"] + [""];
    assert SplitAt("id.", '.') == ["id", ""];
  }

  // ---------------------------------------------------------------------------
  // Payload decoding
  // ---------------------------------------------------------------------------

  /** A parsed JSON value. */
  datatype Json =
    | JNull
    | JBool(b: bool)
    | JNum(n: int)
    | JStr(s: string)
    | JArr(items: seq<Json>)
    | JObj(fields: map<string, Json>)

  /** Map.get: the value under key, null when the key is missing. */
  function Lookup(fields: map<string, Json>, key: string): Json {
    if key in fields then fields[key] else JNull
  }

  /** The payload that marks the end of the event stream. */
  const DoneMarker: string := "[DONE]"

  /** The content-unescaping of the decoder: every \" becomes ", then every \\ becomes \. */
  function Unescape(content: string): string {
    Replace(Replace(content, "\\\"", "\""), "\\\\", "\\")
  }

  /** Text without a backslash goes through the unescaping unchanged. */
  lemma UnescapeWithoutBackslash(content: string)
    requires '\\' !in content
    ensures Unescape(content) == content
  {
    ReplaceWithoutOccurrence(content, "\\\"", "\"");
    ReplaceWithoutOccurrence(content, "\\\\", "\\");
  }

  /** The unescaping never makes the text longer. */
  lemma UnescapeNeverGrows(content: string)
    ensures |Unescape(content)| <= |content|
  {
    ReplaceNeverGrows(content, "\\\"", "\"");
    ReplaceNeverGrows(Replace(content, "\\\"", "\""), "\\\\", "\\");
  }

  /**
   * The string at choices[0].delta.content of an envelope, when the envelope
   * is an object whose "choices" is a non-empty array whose first element is
   * an object whose "delta" is an object with a string "content".
   */
  function DeltaText(envelope: Json): Option<string> {
    if && envelope.JObj? && "choices" in envelope.fields
       && envelope.fields["choices"].JArr? && |envelope.fields["choices"].items| > 0
       && envelope.fields["choices"].items[0].JObj?
       && "delta" in envelope.fields["choices"].items[0].fields
       && envelope.fields["choices"].items[0].fields["delta"].JObj?
       && "content" in envelope.fields["choices"].items[0].fields["delta"].fields
       && envelope.fields["choices"].items[0].fields["delta"].fields["content"].JStr?
    then Some(envelope.fields["choices"].items[0].fields["delta"].fields["content"].s)
    else None
  }

  /** The content of a delta object: absent key yields null; a non-string value throws. */
  function DeltaContent(delta: map<string, Json>): (r: Result<Option<string>, Cause>)
    ensures r.Failure? <==> "content" in delta && !delta["content"].JStr?
    ensures r.Failure? ==> r.error == BadEnvelope
    ensures r.Success? && r.value.Some? ==> "content" in delta && r.value.value == Unescape(delta["content"].s)
  {
    if "content" !in delta then Success(None)
    else match delta["content"]
      case JStr(s) => Success(Some(Unescape(s)))
      case _ => Failure(BadEnvelope)
  }

  /** The content of the first choice: a null or missing delta yields null; a non-object throws. */
  function ChoiceContent(choice: map<string, Json>): (r: Result<Option<string>, Cause>)
    ensures r.Failure? ==> r.error == BadEnvelope
    ensures Lookup(choice, "delta") == JNull ==> r == Success(None)
    ensures r.Success? && r.value.Some? ==> Lookup(choice, "delta").JObj?
  {
    match Lookup(choice, "delta")
    case JNull => Success(None)
    case JObj(delta) => DeltaContent(delta)
    case _ => Failure(BadEnvelope)
  }

  /** The content of a decoded envelope: null or empty choices yield null; wrong shapes throw. */
  function EnvelopeContent(data: map<string, Json>): (r: Result<Option<string>, Cause>)
    ensures r.Failure? ==> r.error == BadEnvelope
    ensures Lookup(data, "choices") == JNull || Lookup(data, "choices") == JArr([]) ==> r == Success(None)
    ensures r.Success? && r.value.Some? <==> DeltaText(JObj(data)).Some?
    ensures r.Success? && r.value.Some? ==> r.value.value == Unescape(DeltaText(JObj(data)).value)
  {
    match Lookup(data, "choices")
    case JNull => Success(None)
    case JArr(items) =>
      if items == [] then Success(None)
      else if items[0].JObj? then ChoiceContent(items[0].fields)
      else Failure(BadEnvelope)
    case _ => Failure(BadEnvelope)
  }

  /**
   * parseContentFromSseData(payload), with parse standing for the JSON
   * reader (None when the text is not JSON). Success(None) is a null return,
   * Failure an exception that aborts the stream.
   */
  function ParseContentFromSseData(payload: string, parse: string -> Option<Json>): (r: Result<Option<string>, Cause>)
    ensures payload == DoneMarker ==> r == Success(None)
    ensures payload != DoneMarker && parse(payload).None? ==> r == Failure(MalformedPayload)
    ensures r.Success? && r.value.Some? <==> payload != DoneMarker && parse(payload).Some? && DeltaText(parse(payload).value).Some?
    ensures r.Success? && r.value.Some? ==> r.value.value == Unescape(DeltaText(parse(payload).value).value)
  {
    if payload == DoneMarker then Success(None)
    else match parse(payload)
      case None => Failure(MalformedPayload)
      case Some(JObj(data)) => EnvelopeContent(data)
      case Some(JNull) => Failure(BadEnvelope)
      case Some(_) => Failure(MalformedPayload)
  }

  /**
   * No content comes out of an envelope whose choices are missing, null or
   * empty, whose first choice has no delta, or whose delta has no content key.
   */
  lemma MissingPartsYieldNothing(payload: string, parse: string -> Option<Json>)
    requires payload != DoneMarker && parse(payload).Some? && parse(payload).value.JObj?
    requires var data := parse(payload).value.fields;
             || Lookup(data, "choices") == JNull
             || Lookup(data, "choices") == JArr([])
             || (&& Lookup(data, "choices").JArr? && Lookup(data, "choices").items[0].JObj?
                 && Lookup(Lookup(data, "choices").items[0].fields, "delta") == JNull)
             || (&& Lookup(data, "choices").JArr? && Lookup(data, "choices").items[0].JObj?
                 && Lookup(Lookup(data, "choices").items[0].fields, "delta").JObj?
                 && "content" !in Lookup(Lookup(data, "choices").items[0].fields, "delta").fields)
    ensures ParseContentFromSseData(payload, parse) == Success(None)
  {
  }

  // ---------------------------------------------------------------------------
  // Event-stream lines
  // ---------------------------------------------------------------------------

  const DataPrefix: string := "data:"

  /** One reply line: lines without the "data:" prefix carry nothing; the rest is trimmed and decoded. */
  function DecodeLine(line: string, parse: string -> Option<Json>): (r: Result<Option<string>, Cause>)
    ensures !StartsWith(line, DataPrefix) ==> r == Success(None)
    ensures StartsWith(line, DataPrefix) ==> r == ParseContentFromSseData(Trim(line[|DataPrefix|..]), parse)
  {
    if StartsWith(line, DataPrefix) then ParseContentFromSseData(Trim(line[|DataPrefix|..]), parse)
    else Success(None)
  }

  /** A "data:" line whose payload is "[DONE]" with any blank padding yields no content and no error. */
  lemma DoneLineYieldsNothing(left: string, right: string, parse: string -> Option<Json>)
    requires IsBlank(left) && IsBlank(right)
    ensures DecodeLine(DataPrefix + left + DoneMarker + right, parse) == Success(None)
  {
    var line := DataPrefix + left + DoneMarker + right;
    assert line[|DataPrefix|..] == left + DoneMarker + right;
    TrimIgnoresPadding(left, DoneMarker, right);
    TrimKeepsTrimmed(DoneMarker);
  }

  /** What the read loop has produced so far: the contents in order, and the error that stopped it, if any. */
  datatype Scan = Scan(contents: seq<string>, failure: Option<Cause>)

  /** The read loop's step on one line; after an error nothing more is read. */
  function Step(st: Scan, line: string, parse: string -> Option<Json>): (next: Scan)
    ensures st.failure.Some? ==> next == st
    ensures |st.contents| <= |next.contents| <= |st.contents| + 1 && next.contents[..|st.contents|] == st.contents
    ensures next.failure.None? ==> st.failure.None? && DecodeLine(line, parse).Success?
  {
    if st.failure.Some? then st
    else match DecodeLine(line, parse)
      case Failure(e) => st.(failure := Some(e))
      case Success(None) => st
      case Success(Some(c)) => st.(contents := st.contents + [c])
  }

  /** The read loop run over lines from state st. */
  function ScanFrom(st: Scan, lines: seq<string>, parse: string -> Option<Json>): Scan
    decreases |lines|
  {
    if lines == [] then st else Step(ScanFrom(st, lines[..|lines| - 1], parse), lines[|lines| - 1], parse)
  }

  /** The read loop over all lines of a reply. */
  function ScanLines(lines: seq<string>, parse: string -> Option<Json>): Scan {
    ScanFrom(Scan([], None), lines, parse)
  }

  /** Reading a + b is reading a, then reading b from where a left off. */
  lemma {:induction false} ScanFromAppend(st: Scan, a: seq<string>, b: seq<string>, parse: string -> Option<Json>)
    ensures ScanFrom(st, a + b, parse) == ScanFrom(ScanFrom(st, a, parse), b, parse)
    decreases |b|
  {
    if b == [] {
      assert a + b == a;
    } else {
      assert (a + b)[..|a + b| - 1] == a + b[..|b| - 1];
      ScanFromAppend(st, a, b[..|b| - 1], parse);
    }
  }

  /** Once the loop has failed, further lines change nothing. */
  lemma {:induction false} FailureIsFinal(st: Scan, lines: seq<string>, parse: string -> Option<Json>)
    requires st.failure.Some?
    ensures ScanFrom(st, lines, parse) == st
    decreases |lines|
  {
    if lines != [] {
      FailureIsFinal(st, lines[..|lines| - 1], parse);
    }
  }

  /** Further lines only append contents: what was delivered stays delivered, in order. */
  lemma {:induction false} ContentsOnlyGrow(st: Scan, lines: seq<string>, parse: string -> Option<Json>)
    ensures |st.contents| <= |ScanFrom(st, lines, parse).contents|
    ensures ScanFrom(st, lines, parse).contents[..|st.contents|] == st.contents
    decreases |lines|
  {
    if lines != [] {
      ContentsOnlyGrow(st, lines[..|lines| - 1], parse);
    }
  }

  /** A line that decodes to nothing can be removed from anywhere without changing the outcome. */
  lemma SilentLineIgnored(a: seq<string>, line: string, b: seq<string>, parse: string -> Option<Json>)
    requires DecodeLine(line, parse) == Success(None)
    ensures ScanLines(a + [line] + b, parse) == ScanLines(a + b, parse)
  {
    var start := Scan([], None);
    var before := ScanFrom(start, a, parse);
    ScanFromAppend(start, a + [line], b, parse);
    ScanFromAppend(start, a, [line], parse);
    assert [line][..0] == [];
    assert ScanFrom(before, [line], parse) == Step(before, line, parse);
    assert Step(before, line, parse) == before;
    ScanFromAppend(start, a, b, parse);
  }

  /** A line without the "data:" prefix can be removed from anywhere without changing the outcome. */
  lemma NonDataLineIgnored(a: seq<string>, line: string, b: seq<string>, parse: string -> Option<Json>)
    requires !StartsWith(line, DataPrefix)
    ensures ScanLines(a + [line] + b, parse) == ScanLines(a + b, parse)
  {
    SilentLineIgnored(a, line, b, parse);
  }

  /** A "[DONE]" line does not stop the loop: the lines after it are still read. */
  lemma DoneDoesNotStop(a: seq<string>, b: seq<string>, parse: string -> Option<Json>)
    ensures ScanLines(a + [DataPrefix + DoneMarker] + b, parse) == ScanLines(a + b, parse)
  {
    DoneLineYieldsNothing([], [], parse);
    assert DataPrefix + [] + DoneMarker + [] == DataPrefix + DoneMarker;
    SilentLineIgnored(a, DataPrefix + DoneMarker, b, parse);
  }

  // ---------------------------------------------------------------------------
  // The streaming call
  // ---------------------------------------------------------------------------

  /** The HTTP exchange as the client sees it: no connection, or a status and the reply's lines. */
  datatype HttpReply =
    | Unreachable
    | Reply(status: int, lines: seq<string>, breaksAfterLines: bool)

  /** Response.isSuccessful: a 2xx status. */
  predicate IsSuccessful(status: int) {
    200 <= status < 300
  }

  /** What a streaming call sends to the emitter and how it ends (the full answer, or the error). */
  datatype Run = Run(chunks: seq<string>, outcome: Result<string, Cause>)

  /** The streaming call as a whole, before completion: the chunks sent and the outcome. */
  function StreamRun(apiKey: string, reply: HttpReply, parse: string -> Option<Json>): (run: Run)
    ensures run.outcome.Success? ==> run.outcome.value == Concat(run.chunks)
    ensures run.outcome.Success? ==> reply.Reply? && IsSuccessful(reply.status) && !reply.breaksAfterLines
    ensures run.chunks != [] ==> reply.Reply? && IsSuccessful(reply.status)
  {
    if |JavaSplit(apiKey, '.')| != 2 then Run([], Failure(InvalidApiKey))
    else if reply.Unreachable? then Run([], Failure(ConnectionFailed))
    else if !IsSuccessful(reply.status) then Run([], Failure(HttpStatus(reply.status)))
    else
      var scan := ScanLines(reply.lines, parse);
      if scan.failure.Some? then Run(scan.contents, Failure(scan.failure.value))
      else if reply.breaksAfterLines then Run(scan.contents, Failure(ReadFailed))
      else Run(scan.contents, Success(Concat(scan.contents)))
  }

  /** What happened to the completion callback handed to the streaming call. */
  datatype CallbackOutcome = NoCallback | Ran | Threw

  class ZhipuLlmService {
    const apiKey: string
    /** The JSON reader. */
    const parse: string -> Option<Json>

    constructor (apiKey: string, parse: string -> Option<Json>)
      ensures this.apiKey == apiKey && this.parse == parse
    {
      this.apiKey := apiKey;
      this.parse := parse;
    }

    /**
     * streamChatResponse up to, not including, its completion: builds the
     * request, then forwards each decoded content to the emitter and appends
     * it to the full answer. Any error ends the stream with that error; on
     * success the stream stays open for FinishStream, and the full answer is
     * returned for the caller's completion callback.
     */
    method StreamChatResponse(question: string, emitter: SseEmitter, context: Option<seq<Message>>, reply: HttpReply, now: int)
      returns (request: Option<ChatRequest>, outcome: Result<string, Cause>)
      requires emitter.state == Open
      modifies emitter
      ensures request == (if GenerateToken(apiKey, now).Success?
                          then Some(ChatRequest(Model, OutboundMessages(context, question), true, GenerateToken(apiKey, now).value))
                          else None)
      ensures emitter.sent == old(emitter.sent) + StreamRun(apiKey, reply, parse).chunks
      ensures outcome == StreamRun(apiKey, reply, parse).outcome
      ensures emitter.state == if outcome.Success? then Open else Failed(outcome.error)
    {
      var token := GenerateToken(apiKey, now);
      if token.Failure? {
        request := None;
        outcome := Failure(token.error);
        emitter.CompleteWithError(token.error);
        return;
      }
      request := Some(ChatRequest(Model, OutboundMessages(context, question), true, token.value));
      if reply.Unreachable? {
        outcome := Failure(ConnectionFailed);
        emitter.CompleteWithError(ConnectionFailed);
        return;
      }
      if !IsSuccessful(reply.status) {
        outcome := Failure(HttpStatus(reply.status));
        emitter.CompleteWithError(HttpStatus(reply.status));
        return;
      }
      var fullAnswer, failure := ReadEvents(emitter, reply.lines);
      if failure.Some? {
        outcome := Failure(failure.value);
        emitter.CompleteWithError(failure.value);
        return;
      }
      if reply.breaksAfterLines {
        outcome := Failure(ReadFailed);
        emitter.CompleteWithError(ReadFailed);
        return;
      }
      outcome := Success(fullAnswer);
    }

    /**
     * The readLine loop: each "data:" line is decoded; each content is sent
     * and appended to the full answer; the first error stops the loop (the
     * chunks sent before it stay sent).
     */
    method ReadEvents(emitter: SseEmitter, lines: seq<string>) returns (fullAnswer: string, failure: Option<Cause>)
      requires emitter.state == Open
      modifies emitter
      ensures emitter.sent == old(emitter.sent) + ScanLines(lines, parse).contents
      ensures failure == ScanLines(lines, parse).failure
      ensures fullAnswer == Concat(ScanLines(lines, parse).contents)
      ensures emitter.state == Open
    {
      fullAnswer := "";
      ghost var delivered: seq<string> := [];
      var i := 0;
      while i < |lines|
        invariant 0 <= i <= |lines|
        invariant ScanLines(lines[..i], parse) == Scan(delivered, None)
        invariant emitter.sent == old(emitter.sent) + delivered
        invariant fullAnswer == Concat(delivered)
        invariant emitter.state == Open
      {
        ScanLinesStep(lines, i, parse);
        var content := DecodeLine(lines[i], parse);
        if content.Failure? {
          FinishedScan(lines, i + 1, parse);
          return fullAnswer, Some(content.error);
        }
        if content.value.Some? {
          AppendAssoc(old(emitter.sent), delivered, [content.value.value]);
          assert (delivered + [content.value.value])[..|delivered|] == delivered;
          emitter.Send(content.value.value);
          fullAnswer := fullAnswer + content.value.value;
          delivered := delivered + [content.value.value];
        }
        assert ScanLines(lines[..i + 1], parse) == Scan(delivered, None);
        i := i + 1;
      }
      assert lines[..i] == lines;
      failure := None;
    }

    /**
     * The end of streamChatResponse after a successful read: the callback
     * (if any) has run, then the stream completes; a callback that threw
     * ends the stream with an error instead. A stream that already ended is
     * left as it is.
     */
    method FinishStream(emitter: SseEmitter, callback: CallbackOutcome)
      modifies emitter
      ensures emitter.sent == old(emitter.sent)
      ensures emitter.state == if !old(emitter.state).Open? then old(emitter.state)
                               else if callback == Threw then Failed(CallbackFailed)
                               else Completed
    {
      if callback == Threw {
        emitter.CompleteWithError(CallbackFailed);
      } else {
        emitter.Complete();
      }
    }
  }

  /** Reading one more line is one more step. */
  lemma ScanLinesStep(lines: seq<string>, i: nat, parse: string -> Option<Json>)
    requires i < |lines|
    ensures ScanLines(lines[..i + 1], parse) == Step(ScanLines(lines[..i], parse), lines[i], parse)
  {
    assert lines[..i + 1][..i] == lines[..i];
  }

  /** A read loop that failed on the first k lines has failed on all of them, with the same contents. */
  lemma FinishedScan(lines: seq<string>, k: nat, parse: string -> Option<Json>)
    requires k <= |lines| && ScanLines(lines[..k], parse).failure.Some?
    ensures ScanLines(lines, parse) == ScanLines(lines[..k], parse)
  {
    assert lines == lines[..k] + lines[k..];
    ScanFromAppend(Scan([], None), lines[..k], lines[k..], parse);
    FailureIsFinal(ScanLines(lines[..k], parse), lines[k..], parse);
  }
}
