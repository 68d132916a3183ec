# AI customer-service chat: a Dafny model of the answer pipeline

This project models the core of a Spring web application in which signed-in users put questions to a
hosted large language model (GLM-4 on the Zhipu AI platform). The model covers these parts:

- **The answer pipeline** (`ChatService`). It validates the session id and its owner, then builds the
  question-cache key. On a cache hit it replays the cached answer. On a miss it packs the session's recent
  exchanges into a token-bounded context and streams a fresh answer from the model. Every answered
  exchange is recorded. The module also replays a session's history as user/assistant messages.
- **The model client** (`ZhipuLLMService`). It assembles the outgoing message list and derives the
  token claims from the API key. It decodes the server-sent-event lines of the reply and forwards each
  content chunk to the emitter, appending it to the full answer. The stream ends by completing after the
  callback, or with an error.
- **Session bookkeeping** (`SessionService` and the `ChatSession` entity). This covers the default
  name, renaming from the first real message, the blank-message guard, and the lifecycle callbacks.
  It also covers the `hasSessions` and `getLatestSession` lookups.
- **The history views** (`HistoryService`). This covers the admin check, the choice of query, and the
  record filter. Each view reports the total a `PageImpl` computes from the filtered content and the
  query's count of every matching record.
- **The knowledge base**. `KnowledgeService` covers the term-frequency tokenizer and the first-strict
  best-match selection. `KnowledgeController` covers the "question,answer" line import and adding one
  entry with an optional image. `StorageService` covers the stored file name, the extension and the URL.

The Java library behaviour the code relies on is written out on sequences of characters:
`String.trim`, `toLowerCase`, `replace`, `startsWith`, `lastIndexOf`, `split` with and
without a limit, `Long.parseLong` and `BufferedReader.readLine`.

Objects that the source updates in place are classes with `modifies` clauses:
- the session entity;
- the repositories;
- the SSE emitter;
- the services that own the cache;
- the upload directory.

Pure computations are functions with lemmas about them. Loops are methods proved against a specification
function: the context packer, the read loop over the reply's lines, the term counter, the best-match scan
and the import loop.

The following become parameters:
- the clock (`now`);
- the tokenizer (`countTokens: string -> nat`);
- the JSON reader (`parse: string -> Option<Json>`);
- cosine similarity (an abstract score function);
- the random UUID text;
- the HTTP reply, as a status and the lines of the body;
- whether a file copy or a line read fails.

Each task submitted to an executor runs to completion in sequence. A cache miss records the question on
the session before the answer is streamed.

Source paths below are relative to the repository root.

## Model

| member | source | states |
|---|---|---|
| JavaText.Trim | src/main/java/com/xiaomi/service/ChatService.java:74 | String.trim: the result is no longer than the input and neither starts nor ends with a char at or below U+0020 |
| JavaText.TrimIsInfix | src/main/java/com/xiaomi/service/ChatService.java:74 | the trimmed text is an infix of the input with only blank chars cut on either side |
| JavaText.TrimEmptyIffBlank | src/main/java/com/xiaomi/service/ChatService.java:93-94 | trim gives "" exactly when every char is at or below U+0020 (the blank-answer and blank-message guards) |
| JavaText.TrimIdempotent | src/main/java/com/xiaomi/service/ChatService.java:93 | trimming twice is trimming once |
| JavaText.TrimKeepsTrimmed | src/main/java/com/xiaomi/service/ZhipuLLMService.java:78 | a text that neither starts nor ends with a blank char is its own trim |
| JavaText.TrimIgnoresPadding | src/main/java/com/xiaomi/service/ChatService.java:74 | blank padding on either side does not change the trimmed text |
| JavaText.TrimStartDropsBlanks | src/main/java/com/xiaomi/service/ChatService.java:74 | what trim cuts at the start is blank |
| JavaText.TrimEndDropsBlanks | src/main/java/com/xiaomi/service/ChatService.java:74 | what trim cuts at the end is blank |
| JavaText.BlankAppend | src/main/java/com/xiaomi/service/ChatService.java:74 | a concatenation is blank exactly when both parts are |
| JavaText.TrimStartOfBlank | src/main/java/com/xiaomi/service/ChatService.java:74 | a blank text loses everything at its start |
| JavaText.TrimStartSkipsBlank | src/main/java/com/xiaomi/service/ChatService.java:74 | blank chars in front do not change the start-trimmed text |
| JavaText.TrimStartIgnoresSuffix | src/main/java/com/xiaomi/service/ChatService.java:74 | start-trimming a text with a non-blank char is unaffected by what follows |
| JavaText.TrimEndSkipsBlank | src/main/java/com/xiaomi/service/ChatService.java:74 | blank chars at the end do not change the end-trimmed text |
| JavaText.ToLowerCase | src/main/java/com/xiaomi/service/ChatService.java:74 | toLowerCase keeps the length and lower-cases each char in place |
| JavaText.ToLowerCaseIdempotent | src/main/java/com/xiaomi/service/ChatService.java:74 | a lower-cased text has no upper-case letter, and lower-casing it again changes nothing |
| JavaText.LowerCaseCommutesWithTrim | src/main/java/com/xiaomi/service/ChatService.java:74 | lower-casing and trimming can be done in either order |
| JavaText.LowerCaseCommutesWithTrimStart | src/main/java/com/xiaomi/service/ChatService.java:74 | lower-casing commutes with trimming the start |
| JavaText.LowerCaseCommutesWithTrimEnd | src/main/java/com/xiaomi/service/ChatService.java:74 | lower-casing commutes with trimming the end |
| JavaText.LastIndexOf | src/main/java/com/xiaomi/service/StorageService.java:53 | lastIndexOf gives -1 (None) exactly when the char is absent, otherwise a position holding it with no later occurrence |
| JavaText.ReplaceWithoutOccurrence | src/main/java/com/xiaomi/service/ZhipuLLMService.java:133-134 | replace leaves a text alone when the target's first char does not occur in it |
| JavaText.ReplaceNeverGrows | src/main/java/com/xiaomi/service/ZhipuLLMService.java:133-134 | replacing a non-empty target by something no longer never lengthens the text |
| JavaText.SplitAt | src/main/java/com/xiaomi/service/ZhipuLLMService.java:141 | the pieces between separators contain no separator |
| JavaText.SplitAtJoin | src/main/java/com/xiaomi/service/ZhipuLLMService.java:141 | joining the pieces with the separator gives back the input |
| JavaText.SplitAtPlainPrefix | src/main/java/com/xiaomi/service/ZhipuLLMService.java:141 | a separator-free prefix is glued onto the first piece |
| JavaText.Repeat | src/main/java/com/xiaomi/service/ZhipuLLMService.java:141 | n copies of one char |
| JavaText.Empties | src/main/java/com/xiaomi/service/ZhipuLLMService.java:141 | n empty strings |
| JavaText.SplitAtSeparators | src/main/java/com/xiaomi/service/ZhipuLLMService.java:141 | n separators in a row split into n + 1 empty pieces |
| JavaText.DropTrailingEmpty | src/main/java/com/xiaomi/service/ZhipuLLMService.java:141 | a prefix of the pieces that ends in a non-empty piece, with only empty pieces cut |
| JavaText.DropTrailingEmptyAfter | src/main/java/com/xiaomi/service/ZhipuLLMService.java:141 | appending empty pieces to a list ending in a non-empty piece is undone |
| JavaText.JavaSplit | src/main/java/com/xiaomi/service/ZhipuLLMService.java:141 | split("\\.") yields pieces without a dot |
| JavaText.JoinEmpties | src/main/java/com/xiaomi/service/ZhipuLLMService.java:141 | joining n + 1 empty pieces gives n separators |
| JavaText.JoinTwoThenEmpties | src/main/java/com/xiaomi/service/ZhipuLLMService.java:141 | joining two pieces and m empty ones gives the pieces around one separator, then m separators |
| JavaText.JavaSplitOfTwoPieces | src/main/java/com/xiaomi/service/ZhipuLLMService.java:141-142 | "a.b" followed by any number of dots, with b non-empty and both dot-free, splits into exactly [a, b] |
| JavaText.PieceThenSeparator | src/main/java/com/xiaomi/service/ZhipuLLMService.java:141 | a separator-free piece followed by the separator comes out first |
| JavaText.PieceThenSeparators | src/main/java/com/xiaomi/service/ZhipuLLMService.java:141 | a separator-free piece followed by k separators splits into the piece and k empty pieces |
| JavaText.JavaSplitTwoPiecesShape | src/main/java/com/xiaomi/service/ZhipuLLMService.java:141-146 | conversely, a two-piece split means the input is piece, dot, non-empty piece, then only dots |
| JavaText.IndexOf | src/main/java/com/xiaomi/controller/KnowledgeController.java:57 | the first position of a char that occurs |
| JavaText.IndexOfAt | src/main/java/com/xiaomi/controller/KnowledgeController.java:57 | a position holding the char with none before it is the first one |
| JavaText.SplitLimit2 | src/main/java/com/xiaomi/controller/KnowledgeController.java:57-58 | split(",", 2) has two parts exactly when a comma occurs; then the first part is comma-free and the input is first part, comma, rest; otherwise the one part is the input |
| JavaText.ParseLong | src/main/java/com/xiaomi/service/ChatService.java:59 | Long.parseLong accepts only an optional sign followed by decimal digits, and only with a value in the signed 64-bit range |
| JavaText.ParseLongOfDecimal | src/main/java/com/xiaomi/service/ChatService.java:59 | conversely, an optional "+" or "-" followed by at least one decimal digit parses to exactly the value it denotes when that value fits in 64 bits, and is refused otherwise |
| JavaText.StartsWithIffPrefixed | src/main/java/com/xiaomi/service/ZhipuLLMService.java:77 | String.startsWith holds of a prefix followed by anything, and a text that starts with a prefix is that prefix followed by the rest |
| SeqUtil.Filter | src/main/java/com/xiaomi/service/HistoryService.java:100-110 | stream().filter(...).collect(...): no longer than the input, holding exactly the input's elements that pass |
| SeqUtil.FilterIsSubsequence | src/main/java/com/xiaomi/service/HistoryService.java:100-110 | what the filter keeps is an order-preserving subsequence of its input |
| SeqUtil.FilterIdempotent | src/main/java/com/xiaomi/service/HistoryService.java:100-110 | filtering twice on the same condition is filtering once |
| SeqUtil.ConcatAppend | src/main/java/com/xiaomi/service/ZhipuLLMService.java:82 | the StringBuilder contents of a + b are those of a followed by those of b |
| ChatSessionEntity.NameFromMessage | src/main/java/com/xiaomi/entity/ChatSession.java:42 | a message of at most 20 chars is the name verbatim; a longer one becomes its first 20 chars and "...", so a name has at most 23 chars |
| ChatSessionEntity.NameFromMessageAwaits | src/main/java/com/xiaomi/entity/ChatSession.java:41-42 | a message-derived name can still be replaced exactly when the message was "" or "新会话" |
| ChatSessionEntity.NameIsSticky | src/main/java/com/xiaomi/entity/ChatSession.java:41-43 | once the name is outside {null, "", "新会话"}, no later message changes it |
| ChatSessionEntity.FirstRealMessageNamesSession | src/main/java/com/xiaomi/entity/ChatSession.java:40-44 | the first message that is not null, "" or "新会话" fixes the name for good, whatever comes before or after it |
| ChatSessionEntity.NameAfterMessage | src/main/java/com/xiaomi/entity/ChatSession.java:40-44 | a name outside null, "" and "新会话", or a null message, leaves the name; otherwise the name is derived from the message and is at most 20 chars plus the ellipsis |
| ChatSessionEntity.ChatSession.constructor | src/main/java/com/xiaomi/service/SessionService.java:22 | a new session of the owner with no id and every other column null |
| ChatSessionEntity.ChatSession.Load | src/main/java/com/xiaomi/service/ChatService.java:60 | findById's copy carries the stored id and columns |
| ChatSessionEntity.ChatSession.OnCreate | src/main/java/com/xiaomi/entity/ChatSession.java:25-32 | @PrePersist stamps both times; a null or empty name becomes "新会话", a non-empty one is kept, and nothing else changes |
| ChatSessionEntity.Created | src/main/java/com/xiaomi/entity/ChatSession.java:25-32 | both times become now, owner and last message are kept, the name is never null or empty, and a non-empty name is kept |
| ChatSessionEntity.ChatSession.OnUpdate | src/main/java/com/xiaomi/entity/ChatSession.java:34-37 | @PreUpdate changes only the update time |
| ChatSessionEntity.ChatSession.InitNameWithFirstMessage | src/main/java/com/xiaomi/entity/ChatSession.java:40-44 | the name changes only when it is null, "" or "新会话" and the message is non-null |
| Repositories.Insert | src/main/java/com/xiaomi/repository/ChatHistoryRepository.java:14-30 | inserting into a time-ordered list keeps it ordered and a permutation of the list plus the new row; the row goes after every row it may follow |
| Repositories.SortedCons | src/main/java/com/xiaomi/repository/ChatHistoryRepository.java:14-30 | a row that may precede the head of an ordered list extends it in order |
| Repositories.AllFollow | src/main/java/com/xiaomi/repository/ChatHistoryRepository.java:14-30 | a row that may precede every element still may after a permutation |
| Repositories.SortByTimestamp | src/main/java/com/xiaomi/repository/ChatHistoryRepository.java:14-30 | ORDER BY timestamp yields an ordered permutation of the rows (null times first); ties come out in reverse insertion order |
| Repositories.NewestFirstPage | src/main/java/com/xiaomi/repository/ChatHistoryRepository.java:21-30 | a paged newest-first query returns exactly the page's window [page * size, page * size + size) of the sorted matching rows, as many as fit after the offset, newest first, drawn from the matching rows, with the count of all matches as total, and on page 0 no row left off is newer than a row shown |
| Repositories.WindowIsNewestFirstPage | src/main/java/com/xiaomi/repository/ChatHistoryRepository.java:21-30 | any window of the sorted matching rows that a page selects is a newest-first page of them with the right length |
| Repositories.SliceIsNewestFirst | src/main/java/com/xiaomi/repository/ChatHistoryRepository.java:21-30 | a slice of the sorted rows with the page's length, starting at 0 on page 0, is ordered, drawn from the matching rows, and on page 0 leaves off no newer row |
| Repositories.FirstPageIsNewest | src/main/java/com/xiaomi/repository/ChatHistoryRepository.java:21-30 | a prefix of the sorted rows leaves off no row newer than one it shows |
| Repositories.PrefixPrecedesRest | src/main/java/com/xiaomi/repository/ChatHistoryRepository.java:21-30 | in a sorted list every row of a prefix may precede every row after it |
| Repositories.SliceKeepsOrder | src/main/java/com/xiaomi/repository/ChatHistoryRepository.java:24-30 | a slice of an ordered list is ordered and draws only on the list |
| Repositories.BySessionOldestFirst | src/main/java/com/xiaomi/repository/ChatHistoryRepository.java:18 | exactly the session's rows, each as often as stored, oldest first |
| Repositories.BySessionNewestFirst | src/main/java/com/xiaomi/repository/ChatHistoryRepository.java:21 | a newest-first page of the session's rows: the window the page selects, with the count of the session's rows as total |
| Repositories.AllNewestFirst | src/main/java/com/xiaomi/repository/ChatHistoryRepository.java:30 | a newest-first page of all rows: the window the page selects, with the count of all rows as total |
| Repositories.ByUserNewestFirst | src/main/java/com/xiaomi/repository/ChatHistoryRepository.java:24-27 | a newest-first page of the user's rows: the window the page selects, with the count of the user's rows as total |
| Repositories.ChatHistoryRepository.Save | src/main/java/com/xiaomi/service/ChatService.java:190 | the new row gets the next id and is appended |
| Repositories.ChatSessionRepository.FindById | src/main/java/com/xiaomi/service/ChatService.java:60 | a fresh copy of the stored session, or null exactly when the id is missing |
| Repositories.ChatSessionRepository.CountByUser | src/main/java/com/xiaomi/repository/ChatSessionRepository.java:13 | countByUser is the number of the owner's sessions |
| Repositories.ChatSessionRepository.Save | src/main/java/com/xiaomi/service/SessionService.java:27 | a new session is persisted (@PrePersist, next id); a stored one is merged, with the update time stamped when a column changed |
| Repositories.Merged | src/main/java/com/xiaomi/entity/ChatSession.java:34-37 | the merged row is the snapshot up to the update time, and equals it when nothing changed or the time is already now |
| Repositories.KnowledgeRepository.Save | src/main/java/com/xiaomi/controller/KnowledgeController.java:62 | the entry is appended |
| SessionServices.WithMessage | src/main/java/com/xiaomi/service/SessionService.java:46-50 | an accepted message sets the name from the message first, then the last message verbatim and the update time; owner and creation time stay |
| SessionServices.AcceptedMessageNamesSession | src/main/java/com/xiaomi/service/SessionService.java:41-50 | after an accepted (non-blank) message the session has a non-empty name, so @PrePersist would not rename it |
| SessionServices.SomeIdIffPositiveCount | src/main/java/com/xiaomi/repository/ChatSessionRepository.java:13 | the owner's session count is positive exactly when some stored session is the owner's |
| SessionServices.SessionService.CreateNewSession | src/main/java/com/xiaomi/service/SessionService.java:21-28 | a fresh session owned by the user, named "新会话", both times now, saved exactly once under the next id |
| SessionServices.SessionService.UpdateSessionWithMessage | src/main/java/com/xiaomi/service/SessionService.java:40-53 | a null session or a null or blank message changes and saves nothing; otherwise the name is initialised from the message, the last message is the message untrimmed, the update time is now, and the session is saved exactly once |
| SessionServices.SessionService.AcceptMessage | src/main/java/com/xiaomi/service/SessionService.java:46-52 | the accepted path: the new columns and the single save |
| SessionServices.SessionService.NoteMessage | src/main/java/com/xiaomi/service/SessionService.java:46-50 | the in-memory steps, naming before the last-message update |
| SessionServices.SessionService.HasSessionsIffOwnsOne | src/main/java/com/xiaomi/service/SessionService.java:58-60 | hasSessions holds exactly when some stored session belongs to the user |
| SessionServices.SessionService.GetLatestSession | src/main/java/com/xiaomi/service/SessionService.java:65-68 | null exactly when the user has no session; otherwise a session of the user with no later update time than any other |
| Sse.SseEmitter.constructor | src/main/java/com/xiaomi/service/ChatService.java:75 | a new stream is open and has sent nothing |
| Sse.SseEmitter.Send | src/main/java/com/xiaomi/service/ChatService.java:84 | send appends one chunk to an open stream |
| Sse.SseEmitter.Complete | src/main/java/com/xiaomi/service/ChatService.java:85 | complete ends an open stream normally; an ended one stays as it is |
| Sse.SseEmitter.CompleteWithError | src/main/java/com/xiaomi/service/ChatService.java:64 | completeWithError ends an open stream with that error; an ended one stays as it is |
| ZhipuLlm.OutboundMessages | src/main/java/com/xiaomi/service/ZhipuLLMService.java:47-51 | the context (nothing when null) followed by exactly one user message holding the question |
| ZhipuLlm.GenerateToken | src/main/java/com/xiaomi/service/ZhipuLLMService.java:140-162 | accepted exactly when the key splits into two parts; then the claims carry HS256/SIGN, the id and secret (dot-free, secret non-empty), exp = now + 3600000 and timestamp = now, and the key is id.secret plus only dots |
| ZhipuLlm.KeyWithTrailingDotsAccepted | src/main/java/com/xiaomi/service/ZhipuLLMService.java:141-146 | every id.secret followed by any number of dots is accepted with that id and secret |
| ZhipuLlm.TrailingDotKeyAccepted | src/main/java/com/xiaomi/service/ZhipuLLMService.java:141-146 | "id.secret." is accepted |
| ZhipuLlm.MissingSecretRejected | src/main/java/com/xiaomi/service/ZhipuLLMService.java:141-143 | "id." is rejected |
| ZhipuLlm.UnescapeWithoutBackslash | src/main/java/com/xiaomi/service/ZhipuLLMService.java:133-134 | content without a backslash is unchanged by the unescaping |
| ZhipuLlm.DeltaContent | src/main/java/com/xiaomi/service/ZhipuLLMService.java:130-134 | a content that is not a string throws; a present string content is unescaped; a missing one gives null |
| ZhipuLlm.ChoiceContent | src/main/java/com/xiaomi/service/ZhipuLLMService.java:129-131 | a null delta gives null; a delta that is not an object throws |
| ZhipuLlm.EnvelopeContent | src/main/java/com/xiaomi/service/ZhipuLLMService.java:126-137 | null or empty choices give null; content comes out exactly when the first choice's delta holds a string content, and is that content unescaped |
| ZhipuLlm.UnescapeNeverGrows | src/main/java/com/xiaomi/service/ZhipuLLMService.java:133-134 | the unescaping never lengthens the content |
| ZhipuLlm.ParseContentFromSseData | src/main/java/com/xiaomi/service/ZhipuLLMService.java:119-138 | "[DONE]" yields null; unparsable JSON throws; content comes out exactly when the envelope has a string at choices[0].delta.content, and it is that string unescaped |
| ZhipuLlm.MissingPartsYieldNothing | src/main/java/com/xiaomi/service/ZhipuLLMService.java:126-137 | null or empty choices, a missing delta or a delta without content yield null |
| ZhipuLlm.DecodeLine | src/main/java/com/xiaomi/service/ZhipuLLMService.java:77-79 | a line without the "data:" prefix yields nothing; a line with it yields what parseContentFromSseData gives for the trimmed text after the prefix, content, nothing or an error |
| ZhipuLlm.Step | src/main/java/com/xiaomi/service/ZhipuLLMService.java:76-85 | after an error nothing more is read; otherwise a line adds at most one content at the end, and a line that throws records its error |
| ZhipuLlm.DoneLineYieldsNothing | src/main/java/com/xiaomi/service/ZhipuLLMService.java:77-79 | a "data:" line whose payload trims to "[DONE]" yields nothing and no error |
| ZhipuLlm.ScanFromAppend | src/main/java/com/xiaomi/service/ZhipuLLMService.java:76-85 | reading a + b is reading a, then b from where a left off |
| ZhipuLlm.FailureIsFinal | src/main/java/com/xiaomi/service/ZhipuLLMService.java:76-85 | after an error no line is read |
| ZhipuLlm.ContentsOnlyGrow | src/main/java/com/xiaomi/service/ZhipuLLMService.java:80-83 | further lines only append contents: what was sent stays sent, in order |
| ZhipuLlm.SilentLineIgnored | src/main/java/com/xiaomi/service/ZhipuLLMService.java:76-85 | a line that decodes to nothing can be removed from anywhere without changing the outcome |
| ZhipuLlm.NonDataLineIgnored | src/main/java/com/xiaomi/service/ZhipuLLMService.java:77 | a line without "data:" can be removed from anywhere without changing the outcome |
| ZhipuLlm.DoneDoesNotStop | src/main/java/com/xiaomi/service/ZhipuLLMService.java:121-123 | a "[DONE]" line does not stop the loop: the outcome is that of the lines without it, so later lines are still read |
| ZhipuLlm.ScanLinesStep | src/main/java/com/xiaomi/service/ZhipuLLMService.java:76-85 | reading one more line is one more step |
| ZhipuLlm.FinishedScan | src/main/java/com/xiaomi/service/ZhipuLLMService.java:93-95 | a loop that failed on a prefix has failed on the whole reply, with the same contents |
| ZhipuLlm.StreamRun | src/main/java/com/xiaomi/service/ZhipuLLMService.java:40-98 | success requires a 2xx reply read to the end, and its answer is the concatenation of the chunks sent; chunks are sent only on a 2xx reply |
| ZhipuLlm.ZhipuLlmService.StreamChatResponse | src/main/java/com/xiaomi/service/ZhipuLLMService.java:40-98 | the request carries glm-4, the outbound messages, stream = true and the claims; the chunks sent and the outcome are those of StreamRun; an error ends the stream with that error, and success leaves it open for the callback |
| ZhipuLlm.ZhipuLlmService.ReadEvents | src/main/java/com/xiaomi/service/ZhipuLLMService.java:74-86 | each decoded content is sent once, in order; the full answer is their concatenation; the first error stops the loop |
| ZhipuLlm.ZhipuLlmService.FinishStream | src/main/java/com/xiaomi/service/ZhipuLLMService.java:89-95 | after the callback the stream completes, or ends with an error when the callback threw; nothing more is sent |
| Chat.KeyIgnoresPaddingAndCase | src/main/java/com/xiaomi/service/ChatService.java:74 | questions that differ only in blank padding or letter case share a cache key |
| Chat.CacheKey | src/main/java/com/xiaomi/service/ChatService.java:74 | the key starts with the session id text as received, followed by a colon |
| Chat.KeyKeepsIdText | src/main/java/com/xiaomi/service/ChatService.java:74 | "07" and "7" parse to the same session but never share a key |
| Chat.KeysSeparateSessions | src/main/java/com/xiaomi/service/ChatService.java:74 | two different parseable session id texts never share a key |
| Chat.PackedCount | src/main/java/com/xiaomi/service/ChatService.java:152-171 | the packer takes at most all turns |
| Chat.ContextOf | src/main/java/com/xiaomi/service/ChatService.java:167-168 | two messages per packed turn |
| Chat.LatestTurns | src/main/java/com/xiaomi/service/ChatService.java:149-150 | the packer walks at most 20 exchanges |
| Chat.LatestTurnsAreNewest | src/main/java/com/xiaomi/service/ChatService.java:149-150 | those exchanges are the session's, newest first, as many as it has up to 20, and none of the session's exchanges left out is newer than one taken |
| Chat.PackedContext | src/main/java/com/xiaomi/service/ChatService.java:141-175 | the context is whole user/assistant pairs, at most 20 of them |
| Chat.ContextLayout | src/main/java/com/xiaomi/service/ChatService.java:167-168 | the context is oldest first: message 2i is the user question and 2i+1 the assistant answer of the i-th oldest packed turn |
| Chat.ContextShift | src/main/java/com/xiaomi/service/ChatService.java:167-168 | putting a turn's two messages in front keeps that layout |
| Chat.PackedWithinBudget | src/main/java/com/xiaomi/service/ChatService.java:163-170 | the running total of the packed turns stays within 2048 - 500; the reserve is checked, never added |
| Chat.PackedIsMaximal | src/main/java/com/xiaomi/service/ChatService.java:163-165 | packing stops only at the end or at the first turn that does not fit, so it never skips a turn and goes on |
| Chat.ContextBounds | src/main/java/com/xiaomi/service/ChatService.java:149-171 | the context uses at most 1548 tokens and holds an even number of messages, at most 40, from a prefix of the latest 20 turns |
| Chat.Pack | src/main/java/com/xiaomi/service/ChatService.java:152-171 | the loop's context is that of the turns PackedCount takes |
| Chat.PackStep | src/main/java/com/xiaomi/service/ChatService.java:163-170 | a turn that fits is taken: one more turn, its tokens added, its messages in front |
| Chat.PackStop | src/main/java/com/xiaomi/service/ChatService.java:163-165 | the first turn that does not fit ends the packing |
| Chat.TokensOfAppend | src/main/java/com/xiaomi/service/ChatService.java:170 | the total grows by the question and answer tokens of each turn taken |
| Chat.Replay | src/main/java/com/xiaomi/service/ChatService.java:123-138 | 2n messages: 2i is the user message with the i-th question and 2i+1 the assistant message with the i-th answer, both with its timestamp |
| Chat.ReplayShift | src/main/java/com/xiaomi/service/ChatService.java:123-138 | putting the first turn's two messages in front keeps that layout |
| Chat.ChatService.constructor | src/main/java/com/xiaomi/service/ChatService.java:44-47 | the cache starts empty |
| Chat.ChatService.GetSessionHistory | src/main/java/com/xiaomi/service/ChatService.java:114-139 | none (the exception) exactly for a missing session; otherwise the replay of its exchanges, oldest first |
| Chat.ChatService.BuildTokenAwareContext | src/main/java/com/xiaomi/service/ChatService.java:141-175 | none (the exception) exactly for a missing session; otherwise the packed context of its latest 20 turns |
| Chat.ChatService.SaveHistory | src/main/java/com/xiaomi/service/ChatService.java:177-193 | a missing session throws and writes nothing; otherwise the update time is stamped and exactly one exchange row with the next id is appended |
| Chat.Exchange | src/main/java/com/xiaomi/service/ChatService.java:184-190 | the stored exchange carries the given id, question and answer, the session, the user and the time |
| Chat.RowAfterRequest | src/main/java/com/xiaomi/service/ChatService.java:83-104 | the session row a request leaves keeps its owner and creation time; an accepted message sets the name from it, the last message and the update time; an ignored one leaves them, except the update time stamped when history was stored |
| Chat.LastSavedRowIsFinal | src/main/java/com/xiaomi/service/ChatService.java:83-104 | a request saves its session at most twice, the last row saved is the row it leaves, and saving nothing leaves the row as it was |
| Chat.HitRecords | src/main/java/com/xiaomi/service/ChatService.java:81-104 | on a cache hit, saveHistory's touch followed by the message update leave the row RowAfterRequest gives |
| Chat.HitLog | src/main/java/com/xiaomi/service/ChatService.java:81-104 | on a cache hit the session saves are the touch, then the message update |
| Chat.MissRecords | src/main/java/com/xiaomi/service/ChatService.java:92-104 | on a cache miss, the message update followed by the callback's touch leave the row RowAfterRequest gives |
| Chat.MissLog | src/main/java/com/xiaomi/service/ChatService.java:92-104 | on a cache miss the session saves are the message update, then the touch when the answer was saved |
| Chat.ChatService.SaveAndCache | src/main/java/com/xiaomi/service/ChatService.java:92-99 | a blank answer stores and caches nothing; otherwise the trimmed answer is saved as history and cached under the key |
| Chat.ChatService.GetStreamingResponse | src/main/java/com/xiaomi/service/ChatService.java:53-111 | a bad id, a missing session or another user's session gives an emitter ended with that error, and nothing is sent, saved, cached or requested; otherwise a cache hit sends exactly the cached answer and completes without a model request or cache write, a miss streams the model's chunks and stores and caches the trimmed answer only when it is not blank; in both cases exactly one exchange row is added when an answer was stored, the session ends as RowAfterRequest says, its saves are exactly those SavedRows lists, and no session id is used up |
| Chat.ChatService.ServeOwned | src/main/java/com/xiaomi/service/ChatService.java:74-107 | after validation, the branch on the cache with the same outcome as above for the emitter, the request, the cache, the history rows and the session row and its saves |
| Chat.ChatService.ServeCached | src/main/java/com/xiaomi/service/ChatService.java:79-85 | a cache hit saves one exchange with the cached answer, sends that answer as the only chunk and completes; the session is touched, then updated by the message, and its saves are those two |
| Chat.ChatService.ServeFromModel | src/main/java/com/xiaomi/service/ChatService.java:86-104 | a cache miss sends the model's chunks and requests the packed context; only a non-blank answer is saved and cached, and the session is updated by the message, then touched when the answer was saved |
| Chat.ChatService.PrepareRequest | src/main/java/com/xiaomi/service/ChatService.java:90-104 | the context is built from the history before the question is recorded on the session |
| Chat.ChatService.StreamAndStore | src/main/java/com/xiaomi/service/ChatService.java:92-101 | the stream, then on success the callback and completion |
| HistoryServices.AnyAuthorityIs | src/main/java/com/xiaomi/service/HistoryService.java:44-46 | the user is admin exactly when some authority equals ROLE_ADMIN |
| HistoryServices.FindByUsername | src/main/java/com/xiaomi/service/HistoryService.java:49-50 | none exactly when no user has the name; otherwise a user with that name |
| HistoryServices.RolePage | src/main/java/com/xiaomi/service/HistoryService.java:92-97 | an admin's page is the newest-first page of all records and a non-admin's that of their own only |
| HistoryServices.GetHistoryByRole | src/main/java/com/xiaomi/service/HistoryService.java:83-113 | an unknown user is refused before any query; otherwise exactly the listable records of the role's page, the caller's own unless an admin, with the total PageImpl computes from them and the query's count |
| HistoryServices.GetHistoryWithFormattedDates | src/main/java/com/xiaomi/service/HistoryService.java:43-82 | an unknown user is refused before any query; otherwise at most one entry per record of the role's page, with the total PageImpl computes from them and the query's count |
| HistoryServices.EntryOf | src/main/java/com/xiaomi/service/HistoryService.java:65-77 | an entry carries the record's id, question, answer, session id, user name and formatted time |
| HistoryServices.ListableEntries | src/main/java/com/xiaomi/service/HistoryService.java:60-79 | at most one entry per record |
| HistoryServices.GetUserHistory | src/main/java/com/xiaomi/service/HistoryService.java:115-132 | a non-admin is refused before any query; otherwise exactly the timed records of the user's page, with the total PageImpl computes from them and the count of the user's records |
| HistoryServices.FilterKeepsOrder | src/main/java/com/xiaomi/service/HistoryService.java:100-110 | filtering keeps newest-first order |
| HistoryServices.HistoryByRoleIsOrderedSubsequence | src/main/java/com/xiaomi/service/HistoryService.java:92-112 | the role view is an order-preserving, newest-first subsequence of the raw page, and its total is the count of every record the query matched, less those dropped from a last page |
| HistoryServices.FilteredPageTotal | src/main/java/com/xiaomi/service/HistoryService.java:112 | the PageImpl total of a filtered page is the query's count, less the dropped records when the page is the last one and keeps some record; it never exceeds the count |
| HistoryServices.EntriesFollowFilter | src/main/java/com/xiaomi/service/HistoryService.java:60-79 | the entries are, one for one and in order, those of the records the filter keeps |
| HistoryServices.FormattedViewMatchesRoleView | src/main/java/com/xiaomi/service/HistoryService.java:43-82 | the formatted view has exactly one entry per record of the role view, with that record's fields, and the same total |
| HistoryServices.UserHistoryKeepsTimedRecords | src/main/java/com/xiaomi/service/HistoryService.java:124-131 | an admin's view of a user is an ordered subsequence of that user's page |
| KnowledgeServices.Pieces | src/main/java/com/xiaomi/service/KnowledgeService.java:76 | at least one piece, each made of term chars only |
| KnowledgeServices.PiecesPartitionText | src/main/java/com/xiaomi/service/KnowledgeService.java:76 | the pieces, concatenated, are exactly the term chars of the text, and there is one more piece than separators |
| KnowledgeServices.PiecesRoundTrip | src/main/java/com/xiaomi/service/KnowledgeService.java:76 | splitting loses nothing: there is one more piece than separators, and putting the separators back between the pieces gives back the text |
| KnowledgeServices.ConcatPrepend | src/main/java/com/xiaomi/service/KnowledgeService.java:76 | concatenation of a one-element prefix |
| KnowledgeServices.ToTermFrequencyVector | src/main/java/com/xiaomi/service/KnowledgeService.java:73-83 | the loop's map is the term frequency of the lower-cased text's terms |
| KnowledgeServices.TermFrequencyCounts | src/main/java/com/xiaomi/service/KnowledgeService.java:78-81 | the keys are exactly the non-empty terms, and each count is the term's number of occurrences, at least 1 |
| KnowledgeServices.VectorKeysAreTerms | src/main/java/com/xiaomi/service/KnowledgeService.java:76-79 | every key is non-empty and made only of CJK ideographs, ASCII letters and digits |
| KnowledgeServices.Terms | src/main/java/com/xiaomi/service/KnowledgeService.java:76 | at least one piece of the lower-cased text, each made of term chars only |
| KnowledgeServices.KeysInOrderListsKeys | src/main/java/com/xiaomi/service/KnowledgeService.java:78-81 | the keys, listed in order of first occurrence, each once |
| KnowledgeServices.CountsSumToTerms | src/main/java/com/xiaomi/service/KnowledgeService.java:78-81 | the counts add up to the number of non-empty terms |
| KnowledgeServices.CountOneMore | src/main/java/com/xiaomi/service/KnowledgeService.java:80 | counting one more term adds one to the sum of the counts |
| KnowledgeServices.OneMoreTerm | src/main/java/com/xiaomi/service/KnowledgeService.java:80 | the keys and counts after one more term |
| KnowledgeServices.SumOverIncrement | src/main/java/com/xiaomi/service/KnowledgeService.java:80 | incrementing a listed key adds one to the sum |
| KnowledgeServices.SumOverNewKey | src/main/java/com/xiaomi/service/KnowledgeService.java:80 | a new key counted once adds one to the sum |
| KnowledgeServices.SumOverUnlisted | src/main/java/com/xiaomi/service/KnowledgeService.java:80 | changing an unlisted key leaves the sum alone |
| KnowledgeServices.FilterAppend | src/main/java/com/xiaomi/service/KnowledgeService.java:79 | filtering a list grown at the end |
| KnowledgeServices.BestSoFar | src/main/java/com/xiaomi/service/KnowledgeService.java:39-56 | the scan's best index holds the running maximum |
| KnowledgeServices.BestIsFirstArgmax | src/main/java/com/xiaomi/service/KnowledgeService.java:39-56 | the scan picks the first strictly greatest score when some score is positive, and nothing (with maximum 0) when none is |
| KnowledgeServices.AnswerIsBestAboveThreshold | src/main/java/com/xiaomi/service/KnowledgeService.java:62-66 | an answer comes back exactly when the first strictly greatest positive score is at least 0.5, and it is that entry's answer |
| KnowledgeServices.KnowledgeService.Scores | src/main/java/com/xiaomi/service/KnowledgeService.java:46-49 | one score per entry, in table order |
| KnowledgeServices.KnowledgeService.FindAnswerInKnowledgeBase | src/main/java/com/xiaomi/service/KnowledgeService.java:29-67 | an empty table answers nothing; otherwise the answer of the best match above the threshold |
| KnowledgeServices.AnswerFor | src/main/java/com/xiaomi/service/KnowledgeService.java:58-66 | an answer given is the answer of some entry of the table |
| KnowledgeControllers.LineEnd | src/main/java/com/xiaomi/controller/KnowledgeController.java:56 | the first line break, with none before it |
| KnowledgeControllers.ReadLines | src/main/java/com/xiaomi/controller/KnowledgeController.java:56 | readLine's lines hold no line break |
| KnowledgeControllers.ReadLinesOfJoinLines | src/main/java/com/xiaomi/controller/KnowledgeController.java:56 | lines written each with "\n" are read back as they were |
| KnowledgeControllers.LineEndOfLine | src/main/java/com/xiaomi/controller/KnowledgeController.java:56 | a line's break is found at its end |
| KnowledgeControllers.ParseLine | src/main/java/com/xiaomi/controller/KnowledgeController.java:57-61 | a line gives an entry exactly when it contains a comma; the question is comma-free and no image is set |
| KnowledgeControllers.ParseLineOfJoined | src/main/java/com/xiaomi/controller/KnowledgeController.java:57-61 | question, comma and answer parse back as the trimmed question and the trimmed answer, which may hold commas |
| KnowledgeControllers.EntriesOfSnoc | src/main/java/com/xiaomi/controller/KnowledgeController.java:56-65 | the entries of one more line are those before it followed by that line's entry, if it parses |
| KnowledgeControllers.EntriesCountCommaLines | src/main/java/com/xiaomi/controller/KnowledgeController.java:54-66 | there is one entry per line with a comma |
| KnowledgeControllers.LinesRead | src/main/java/com/xiaomi/controller/KnowledgeController.java:56 | the lines read before a read failure are at most all lines |
| KnowledgeControllers.KnowledgeController.HandleFileUpload | src/main/java/com/xiaomi/controller/KnowledgeController.java:44-72 | an empty file saves nothing; otherwise the entries of the lines read are saved in order; the count of all entries is reported when no read and no close threw, and a failing read, including the one that would find the end of the file or the close, reports failure with the earlier entries kept |
| KnowledgeControllers.KnowledgeController.ImportLines | src/main/java/com/xiaomi/controller/KnowledgeController.java:52-66 | the loop saves the entries of the lines before the failing read, in order, reports failure exactly when some read or the close throws, and otherwise counts every entry |
| KnowledgeControllers.KnowledgeController.ImportFirst | src/main/java/com/xiaomi/controller/KnowledgeController.java:56-65 | the first lines read are saved as their entries, in order, and counted |
| KnowledgeControllers.KnowledgeController.ImportLine | src/main/java/com/xiaomi/controller/KnowledgeController.java:57-64 | a line is saved as one entry exactly when it parses, and the repository grows by that entry only |
| KnowledgeControllers.LineEntries | src/main/java/com/xiaomi/controller/KnowledgeController.java:57-64 | a line gives one entry when it holds a comma and none otherwise |
| KnowledgeControllers.EntriesOf | src/main/java/com/xiaomi/controller/KnowledgeController.java:56-65 | no more entries than lines |
| KnowledgeControllers.KnowledgeController.AddKnowledge | src/main/java/com/xiaomi/controller/KnowledgeController.java:77-97 | a failed image store saves nothing and writes no file; with no image the entry is saved as given and no file is written; otherwise the file is written under its stored name and the entry is saved once with that file's URL |
| Storage.Extension | src/main/java/com/xiaomi/service/StorageService.java:51-54 | "" exactly when the name is null or has no dot; otherwise a suffix of the name that starts with its last dot and holds no other dot |
| Storage.ExtensionOfSuffix | src/main/java/com/xiaomi/service/StorageService.java:51-55 | a dot-free prefix and an extension give back that extension |
| Storage.StoredNameKeepsExtension | src/main/java/com/xiaomi/service/StorageService.java:55-66 | the stored name and the URL end with the original extension |
| Storage.StoredName | src/main/java/com/xiaomi/service/StorageService.java:55-58 | a dot-free UUID text followed by the extension keeps the original file's extension |
| Storage.StorageService.Store | src/main/java/com/xiaomi/service/StorageService.java:43-70 | an empty file and a failed copy are refused and write nothing; otherwise the file is written under UUID plus extension and the URL is "/uploads/" plus that name |

## Left out

- Concurrency: the executors' tasks run one after the other, to completion, with no interleaving. Races between requests on the cache and the tables are not modelled.
- HTTP, TLS, OkHttp and the SSE transport. The reply is a parameter: unreachable, or a status with the body's lines and whether reading broke after them. The emitter keeps only the chunks sent and how it ended.
- Jackson: the JSON reader is a parameter, and the request body is the ChatRequest value, not its JSON text.
- The JWT signature (HMAC-SHA256): only the key split and the claim values are modelled.
- The Caffeine size and expiry policy: the cache is a plain map that never evicts.
- jtokkit token counting: an arbitrary `countTokens` function.
- Cosine similarity: floating point, replaced by an abstract score function on the two term-frequency vectors.
- The clock, date formatting and logging: one `now` per request, a `format` parameter, no output.
- The tokenizer's regex split is modelled char by char over the same character classes. Strings are sequences of chars, not UTF-16 units, and input decoding (UTF-8) is not modelled.
- JavaText.ParseLong: accepts only the ASCII digits 0-9, while Long.parseLong also accepts the other Unicode decimal digits that Character.digit knows.
- JavaText.ToLowerCase: lower-cases only ASCII letters, because the locale-dependent Unicode mapping of String.toLowerCase is not modelled.
- Storage: directory creation in the constructor, the path normalisation and the partial writes of Files.copy are not modelled; the copy either completes or fails.
- Repository save failures in handleFileUpload (an exception other than a read failure) are not modelled; only a failing line read is.
- SessionServices.SessionService.GetLatestSession: the listing query is taken as given; the member receives the id list findByUserOrderByUpdateTimeDesc returns and requires that it be that listing.
- Database tie ordering: SQL leaves the order of rows with equal times open; the model fixes one order, reverse insertion order, and no property depends on it beyond the time order.
- A null question and null fields of stored rows other than the session and the timestamp are not modelled.
- Emitter send failures (a client that went away) are not modelled.
- In addKnowledge, the form-bound imageUrl is kept as given when no image is uploaded.
- Exception message texts are named causes, not the exact Chinese strings, except for the storage errors.
- KnowledgeRepository.java and UserRepository.java are not part of this model; their behaviour is taken from the entity and the calls made on them.
- @PreUpdate on a merge stamps the stored row with the request's single `now`.
