/**
 * The admin side of the knowledge base: importing "question,answer" lines
 * from an uploaded text file, and adding one entry with an optional image.
 */
module KnowledgeControllers {
  import opened Wrappers
  import opened JavaText
  import opened SeqUtil
  import opened Entities
  import opened Repositories
  import opened Storage

  // ---------------------------------------------------------------------------
  // Reading lines
  // ---------------------------------------------------------------------------

  predicate IsLineBreak(c: char) {
    c == '\n' || c == '\r'
  }

  predicate HasNoLineBreak(line: string) {
    forall i :: 0 <= i < |line| ==> !IsLineBreak(line[i])
  }

  /** The position of the first line break, or the length when there is none. */
  function LineEnd(text: string): (i: nat)
    ensures i <= |text| && HasNoLineBreak(text[..i])
    ensures i < |text| ==> IsLineBreak(text[i])
    decreases |text|
  {
    if text == [] || IsLineBreak(text[0]) then 0
    else
      var i := 1 + LineEnd(text[1..]);
      assert text[..i] == [text[0]] + text[1..][..i - 1];
      i
  }

  /**
   * BufferedReader.readLine until it returns null: lines end at "\n", "\r"
   * or "\r\n", which are not part of them; a last line without a break is
   * read too, and an empty remainder gives no line.
   */
  function ReadLines(text: string): (lines: seq<string>)
    ensures forall k :: 0 <= k < |lines| ==> HasNoLineBreak(lines[k])
    decreases |text|
  {
    if text == [] then []
    else
      var i := LineEnd(text);
      var next := if i + 1 < |text| && text[i] == '\r' && text[i + 1] == '\n' then i + 2
                  else if i < |text| then i + 1
                  else i;
      [text[..i]] + ReadLines(text[next..])
  }

  /** The text of lines each ended by "\n". */
  function JoinLines(lines: seq<string>): string
    decreases |lines|
  {
    if lines == [] then "" else lines[0] + "\n" + JoinLines(lines[1..])
  }

  /** Lines written each with its "\n" are read back as they were. */
  lemma {:induction false} ReadLinesOfJoinLines(lines: seq<string>)
    requires forall k :: 0 <= k < |lines| ==> HasNoLineBreak(lines[k])
    ensures ReadLines(JoinLines(lines)) == lines
    decreases |lines|
  {
    if lines != [] {
      var line := lines[0];
      var rest := JoinLines(lines[1..]);
      var text := JoinLines(lines);
      assert text == line + ("\n" + rest);
      ReadLinesOfJoinLines(lines[1..]);
      LineEndOfLine(line, "\n" + rest);
      assert text[..|line|] == line && text[|line|] == '\n';
      assert text[|line| + 1..] == rest;
      assert ReadLines(text) == [line] + ReadLines(rest);
    }
  }

  /** The first line break after a line without breaks is at the line's end. */
  lemma {:induction false} LineEndOfLine(line: string, rest: string)
    requires HasNoLineBreak(line) && rest != [] && IsLineBreak(rest[0])
    ensures LineEnd(line + rest) == |line|
    decreases |line|
  {
    if line != [] {
      assert (line + rest)[1..] == line[1..] + rest;
      LineEndOfLine(line[1..], rest);
    }
  }

  // ---------------------------------------------------------------------------
  // Parsing lines
  // ---------------------------------------------------------------------------

  /**
   * The entry of one line: split(",", 2) must give two parts, the question
   * before the first comma and the answer after it, both trimmed.
   */
  function ParseLine(line: string): (k: Option<Knowledge>)
    ensures k.Some? <==> ',' in line
    ensures k.Some? ==> ',' !in k.value.question && k.value.imageUrl.None?
  {
    var parts := SplitLimit2(line, ',');
    if |parts| == 2 then
      TrimIsInfix(parts[0]);
      Some(Knowledge(Trim(parts[0]), Trim(parts[1]), None))
    else None
  }

  /** A question without a comma and any answer, joined by a comma, parse back trimmed; the answer may hold commas. */
  lemma ParseLineOfJoined(question: string, answer: string)
    requires ',' !in question
    ensures ParseLine(question + "," + answer) == Some(Knowledge(Trim(question), Trim(answer), None))
  {
    var line := question + "," + answer;
    var j := |question|;
    assert line[j] == ',' && line[..j] == question;
    IndexOfAt(line, ',', j);
    assert line[j + 1..] == answer;
  }

  /** The entry a line gives, if it parses: none or one. */
  function LineEntries(line: string): (entries: seq<Knowledge>)
    ensures |entries| == (if ',' in line then 1 else 0)
  {
    match ParseLine(line)
    case Some(k) => [k]
    case None => []
  }

  /** The entries of the lines, in order, one per line that parses. */
  function EntriesOf(lines: seq<string>): (entries: seq<Knowledge>)
    ensures |entries| <= |lines|
    decreases |lines|
  {
    if lines == [] then []
    else EntriesOf(lines[..|lines| - 1]) + LineEntries(lines[|lines| - 1])
  }

  /** The entries of one more line. */
  lemma EntriesOfSnoc(lines: seq<string>, i: nat)
    requires i < |lines|
    ensures EntriesOf(lines[..i + 1]) == EntriesOf(lines[..i]) + LineEntries(lines[i])
  {
    assert lines[..i + 1][..i] == lines[..i];
  }

  /** The number of lines that hold a comma. */
  function CommaLineCount(lines: seq<string>): nat
    decreases |lines|
  {
    if lines == [] then 0
    else CommaLineCount(lines[..|lines| - 1]) + (if ',' in lines[|lines| - 1] then 1 else 0)
  }

  /** One entry per line with a comma: the count reported is the number of such lines. */
  lemma {:induction false} EntriesCountCommaLines(lines: seq<string>)
    ensures |EntriesOf(lines)| == CommaLineCount(lines)
    decreases |lines|
  {
    if lines != [] {
      var prefix := lines[..|lines| - 1];
      var last := lines[|lines| - 1];
      EntriesCountCommaLines(prefix);
    }
  }

  // ---------------------------------------------------------------------------
  // The controller
  // ---------------------------------------------------------------------------

  /** The flash message of the upload form. */
  datatype UploadMessage =
    | ChooseFile               // "请选择一个文件上传。"
    | Uploaded(count: nat)     // "成功上传并新增了 <count> 条知识。"
    | UploadFailed             // "文件上传失败: " with the exception's message

  /** The flash message of the add form. */
  datatype AddMessage =
    | Added                              // "新知识条目已成功添加！"
    | ImageFailed(error: StorageError)   // "图片上传失败: " with the storage error's message

  /**
   * How many lines of text are read before read number failAt throws (all of
   * them when it never does, or when only the terminating read, number
   * |ReadLines(text)|, or the close of the reader throws).
   */
  function LinesRead(text: string, failAt: Option<nat>): (n: nat)
    ensures n <= |ReadLines(text)|
  {
    if failAt.Some? && failAt.value < |ReadLines(text)| then failAt.value else |ReadLines(text)|
  }

  class KnowledgeController {
    const repository: KnowledgeRepository
    const storage: StorageService

    constructor (repository: KnowledgeRepository, storage: StorageService)
      ensures this.repository == repository && this.storage == storage
    {
      this.repository := repository;
      this.storage := storage;
    }

    /**
     * handleFileUpload(file), where failAt, when set, is the number of the
     * read that throws: reads 0 to |lines| - 1 return the lines, read |lines|
     * is the one that finds the end of the file, and a throwing close counts
     * as that last one. An empty file saves nothing. Otherwise each line read
     * that holds a comma is saved as an entry, in order; the count is
     * reported when no read and no close threw, and a failure reports
     * failure while the entries saved before it stay saved.
     */
    method HandleFileUpload(file: UploadedFile, failAt: Option<nat>) returns (message: UploadMessage)
      modifies repository
      ensures IsEmpty(file) ==> message == ChooseFile && repository.entries == old(repository.entries)
      ensures !IsEmpty(file) ==> repository.entries == old(repository.entries) + EntriesOf(ReadLines(file.content)[..LinesRead(file.content, failAt)])
      ensures !IsEmpty(file) ==> message == (if failAt.Some? && failAt.value <= |ReadLines(file.content)| then UploadFailed
                                             else Uploaded(|EntriesOf(ReadLines(file.content))|))
    {
      if IsEmpty(file) {
        return ChooseFile;
      }
      var lines := ReadLines(file.content);
      var count, failed := ImportLines(lines, failAt);
      message := if failed then UploadFailed else Uploaded(count);
    }

    /** The read loop of handleFileUpload over the lines of the file, stopping where read number failAt throws. */
    method ImportLines(lines: seq<string>, failAt: Option<nat>) returns (count: nat, failed: bool)
      modifies repository
      ensures failed <==> failAt.Some? && failAt.value <= |lines|
      ensures repository.entries == old(repository.entries)
                + EntriesOf(lines[..if failAt.Some? && failAt.value < |lines| then failAt.value else |lines|])
      ensures !failed ==> count == |EntriesOf(lines)|
    {
      failed := failAt.Some? && failAt.value <= |lines|;
      var read := if failAt.Some? && failAt.value < |lines| then failAt.value else |lines|;
      count := ImportFirst(lines, read);
      assert lines[..|lines|] == lines;
    }

    /** The lines read before the loop stops: each line that parses is saved, in order, and counted. */
    method ImportFirst(lines: seq<string>, read: nat) returns (count: nat)
      requires read <= |lines|
      modifies repository
      ensures repository.entries == old(repository.entries) + EntriesOf(lines[..read])
      ensures count == |EntriesOf(lines[..read])|
    {
      count := 0;
      var i := 0;
      ghost var start := repository.entries;
      ghost var done: seq<Knowledge> := [];
      assert lines[..i] == [];
      while i < read
        invariant 0 <= i <= read
        invariant done == EntriesOf(lines[..i])
        invariant repository.entries == start + done
        invariant count == |done|
      {
        var saved := ImportLine(lines[i]);
        ghost var added := LineEntries(lines[i]);
        AppendAssoc(start, done, added);
        EntriesOfSnoc(lines, i);
        done := done + added;
        if saved {
          count := count + 1;
        }
        i := i + 1;
      }
    }

    /** The loop body of handleFileUpload: a line that splits into two parts is saved as one entry. */
    method ImportLine(line: string) returns (saved: bool)
      modifies repository
      ensures saved <==> ParseLine(line).Some?
      ensures repository.entries == old(repository.entries) + LineEntries(line)
      ensures |repository.entries| == |old(repository.entries)| + if saved then 1 else 0
    {
      var parts := SplitLimit2(line, ',');
      saved := false;
      if |parts| == 2 {
        var newKnowledge := Knowledge(Trim(parts[0]), Trim(parts[1]), None);
        repository.Save(newKnowledge);
        saved := true;
      }
    }

    /**
     * addKnowledge(newKnowledge, imageFile): a non-empty image is stored
     * first, and when that fails nothing is saved; otherwise the entry is
     * saved once, carrying the image's URL when an image was stored.
     */
    method AddKnowledge(newKnowledge: Knowledge, imageFile: Option<UploadedFile>, uuid: string, copySucceeds: bool)
      returns (message: AddMessage)
      modifies repository, storage
      ensures var withImage := imageFile.Some? && !IsEmpty(imageFile.value);
              && (withImage && !copySucceeds ==>
                    message == ImageFailed(StoreFailed) && repository.entries == old(repository.entries)
                    && storage.files == old(storage.files))
              && (!withImage ==>
                    message == Added && repository.entries == old(repository.entries) + [newKnowledge]
                    && storage.files == old(storage.files))
              && (withImage && copySucceeds ==>
                    message == Added
                    && repository.entries == old(repository.entries)
                         + [newKnowledge.(imageUrl := Some(UploadsPath + StoredName(uuid, imageFile.value.originalFilename)))]
                    && storage.files == old(storage.files)[StoredName(uuid, imageFile.value.originalFilename) := imageFile.value.content])
    {
      var entry := newKnowledge;
      if imageFile.Some? && !IsEmpty(imageFile.value) {
        var stored := storage.Store(imageFile.value, uuid, copySucceeds);
        if stored.Failure? {
          return ImageFailed(stored.error);
        }
        entry := entry.(imageUrl := Some(stored.value));
      }
      repository.Save(entry);
      return Added;
    }
  }
}
