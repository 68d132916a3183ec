/**
 * The knowledge-base lookup: questions become term-frequency vectors, and
 * the stored question scoring strictly highest against the user's question
 * answers it when its score reaches the threshold.
 */
module KnowledgeServices {
  import opened Wrappers
  import opened JavaText
  import opened SeqUtil
  import opened Entities
  import opened Repositories

  // ---------------------------------------------------------------------------
  // Terms
  // ---------------------------------------------------------------------------

  /** The characters a term is made of: CJK ideographs U+4E00..U+9FA5, ASCII letters and digits. */
  predicate IsTermChar(c: char) {
    ('一' <= c <= '龥') || ('a' <= c <= 'z') || ('A' <= c <= 'Z') || ('0' <= c <= '9')
  }

  predicate IsTerm(t: string) {
    forall j :: 0 <= j < |t| ==> IsTermChar(t[j])
  }

  /**
   * The pieces between the non-term characters of s, in order: every
   * non-term character ends a piece, so a run of them leaves empty pieces
   * behind. The non-empty pieces are exactly those of String.split on the
   * regex [^一-龥a-zA-Z0-9]+; the empty ones are skipped by every
   * user of the pieces.
   */
  function Pieces(s: string): (r: seq<string>)
    ensures |r| >= 1
    ensures forall i :: 0 <= i < |r| ==> IsTerm(r[i])
    decreases |s|
  {
    if s == [] then [""]
    else
      var rest := Pieces(s[1..]);
      if IsTermChar(s[0]) then
        var first := [s[0]] + rest[0];
        assert IsTerm(first) by {
          forall j | 1 <= j < |first|
            ensures IsTermChar(first[j])
          {
            assert first[j] == rest[0][j - 1];
          }
        }
        [first] + rest[1..]
      else [""] + rest
  }

  /** The terms of a text: the pieces of its lower-cased form. */
  function Terms(text: string): (terms: seq<string>)
    ensures |terms| >= 1 && forall i :: 0 <= i < |terms| ==> IsTerm(terms[i])
  {
    Pieces(ToLowerCase(text))
  }

  predicate IsSeparator(c: char) {
    !IsTermChar(c)
  }

  /** Concatenating a one-element prefix. */
  lemma ConcatPrepend(x: string, ys: seq<string>)
    ensures Concat([x] + ys) == x + Concat(ys)
  {
    ConcatAppend([x], ys);
    assert [x][..0] == [];
  }

  /**
   * The pieces hold every term character of s, in order, and nothing else,
   * and there is one more piece than there are separators: the pieces are
   * what is left between the separators.
   */
  lemma {:induction false} PiecesPartitionText(s: string)
    ensures Concat(Pieces(s)) == Filter(s, IsTermChar)
    ensures |Pieces(s)| == 1 + |Filter(s, IsSeparator)|
    decreases |s|
  {
    if s == [] {
      assert Concat([""]) == Concat([""][..0]) + "";
    } else {
      var rest := Pieces(s[1..]);
      PiecesPartitionText(s[1..]);
      if IsTermChar(s[0]) {
        assert rest == [rest[0]] + rest[1..];
        ConcatPrepend(rest[0], rest[1..]);
        ConcatPrepend([s[0]] + rest[0], rest[1..]);
      } else {
        ConcatPrepend("", rest);
      }
    }
  }

  /** The pieces with the separators put back between them, one separator after each piece but the last. */
  function Interleave(pieces: seq<string>, separators: string): string
    requires |pieces| == |separators| + 1
    decreases |separators|
  {
    if separators == [] then pieces[0]
    else pieces[0] + [separators[0]] + Interleave(pieces[1..], separators[1..])
  }

  /** Splitting loses nothing: putting the separators back between the pieces gives back the text. */
  lemma {:induction false} PiecesRoundTrip(s: string)
    ensures |Pieces(s)| == |Filter(s, IsSeparator)| + 1
    ensures Interleave(Pieces(s), Filter(s, IsSeparator)) == s
    decreases |s|
  {
    if s != [] {
      var rest := Pieces(s[1..]);
      var separators := Filter(s[1..], IsSeparator);
      PiecesRoundTrip(s[1..]);
      assert s == [s[0]] + s[1..];
      if IsTermChar(s[0]) {
        assert Pieces(s) == [[s[0]] + rest[0]] + rest[1..];
        assert Filter(s, IsSeparator) == separators;
        InterleaveTermChar(s[0], rest, separators);
      } else {
        assert Pieces(s) == [""] + rest;
        assert Filter(s, IsSeparator) == [s[0]] + separators;
        InterleaveSeparator(s[0], rest, separators);
      }
    }
  }

  /** A term character in front of the text joins the first piece. */
  lemma InterleaveTermChar(c: char, pieces: seq<string>, separators: string)
    requires |pieces| == |separators| + 1
    ensures Interleave([[c] + pieces[0]] + pieces[1..], separators) == [c] + Interleave(pieces, separators)
  {
    var tail := if separators == [] then "" else [separators[0]] + Interleave(pieces[1..], separators[1..]);
    InterleaveFirst([c] + pieces[0], pieces[1..], separators);
    assert pieces == [pieces[0]] + pieces[1..];
    InterleaveFirst(pieces[0], pieces[1..], separators);
    assert Interleave(pieces, separators) == pieces[0] + tail;
    assert ([c] + pieces[0]) + tail == [c] + (pieces[0] + tail);
  }

  /** A separator in front of the text starts with an empty piece. */
  lemma InterleaveSeparator(c: char, pieces: seq<string>, separators: string)
    requires |pieces| == |separators| + 1
    ensures Interleave([""] + pieces, [c] + separators) == [c] + Interleave(pieces, separators)
  {
    InterleaveFirst("", pieces, [c] + separators);
    assert ([c] + separators)[1..] == separators;
  }

  /** Interleave starts with the first piece, followed by what the other pieces and the separators make. */
  lemma InterleaveFirst(first: string, others: seq<string>, separators: string)
    requires |others| == |separators|
    ensures Interleave([first] + others, separators)
         == first + (if separators == [] then "" else [separators[0]] + Interleave(others, separators[1..]))
  {
    assert ([first] + others)[1..] == others;
  }

  // ---------------------------------------------------------------------------
  // Term-frequency vectors
  // ---------------------------------------------------------------------------

  /** The vector after counting the terms one by one, skipping empty ones. */
  function TermFrequency(terms: seq<string>): map<string, nat>
    decreases |terms|
  {
    if terms == [] then map[]
    else
      var tf := TermFrequency(terms[..|terms| - 1]);
      var t := terms[|terms| - 1];
      if t == "" then tf else tf[t := (if t in tf then tf[t] else 0) + 1]
  }

  /** toTermFrequencyVector(text): the loop that counts the text's terms into a fresh map. */
  method ToTermFrequencyVector(text: string) returns (vector: map<string, nat>)
    ensures vector == TermFrequency(Terms(text))
  {
    var terms := Terms(text);
    vector := map[];
    for i := 0 to |terms|
      invariant vector == TermFrequency(terms[..i])
    {
      assert terms[..i + 1][..i] == terms[..i];
      var term := terms[i];
      if term == "" {
        continue;
      }
      vector := vector[term := (if term in vector then vector[term] else 0) + 1];
    }
    assert terms[..|terms|] == terms;
  }

  /**
   * The vector's keys are the non-empty terms, and each key's count is its
   * number of occurrences among the terms, so at least one.
   */
  lemma {:induction false} TermFrequencyCounts(terms: seq<string>)
    ensures forall t :: t in TermFrequency(terms) <==> t != "" && t in terms
    ensures forall t :: t in TermFrequency(terms) ==> TermFrequency(terms)[t] == multiset(terms)[t] >= 1
    decreases |terms|
  {
    if terms != [] {
      var prefix := terms[..|terms| - 1];
      TermFrequencyCounts(prefix);
      assert terms == prefix + [terms[|terms| - 1]];
    }
  }

  /** Every key of a text's vector is a non-empty term made of term characters only. */
  lemma VectorKeysAreTerms(text: string)
    ensures forall t :: t in TermFrequency(Terms(text)) ==> t != "" && IsTerm(t)
  {
    TermFrequencyCounts(Terms(text));
  }

  /** The non-empty terms. */
  function NonEmptyTerms(terms: seq<string>): seq<string> {
    Filter(terms, (t: string) => t != "")
  }

  /** The vector's keys, each once, in the order of their first occurrence. */
  function KeysInOrder(terms: seq<string>): (keys: seq<string>)
    decreases |terms|
  {
    if terms == [] then []
    else
      var keys := KeysInOrder(terms[..|terms| - 1]);
      var t := terms[|terms| - 1];
      if t == "" || t in keys then keys else keys + [t]
  }

  /** The sum of the counts of keys. */
  function SumOver(keys: seq<string>, tf: map<string, nat>): nat
    requires forall k :: k in keys ==> k in tf
    decreases |keys|
  {
    if keys == [] then 0 else SumOver(keys[..|keys| - 1], tf) + tf[keys[|keys| - 1]]
  }

  predicate Distinct(keys: seq<string>) {
    forall i, j :: 0 <= i < j < |keys| ==> keys[i] != keys[j]
  }

  /** KeysInOrder lists each key of the vector exactly once. */
  lemma {:induction false} KeysInOrderListsKeys(terms: seq<string>)
    ensures Distinct(KeysInOrder(terms))
    ensures forall t :: t in KeysInOrder(terms) <==> t in TermFrequency(terms)
    decreases |terms|
  {
    if terms != [] {
      KeysInOrderListsKeys(terms[..|terms| - 1]);
    }
  }

  /** Filter of a list grown at the end. */
  lemma {:induction false} FilterAppend<T(!new)>(s: seq<T>, x: T, keep: T -> bool)
    ensures Filter(s + [x], keep) == Filter(s, keep) + (if keep(x) then [x] else [])
    decreases |s|
  {
    if s == [] {
      assert [] + [x] == [x];
      assert [x][1..] == [];
    } else {
      assert (s + [x])[1..] == s[1..] + [x];
      FilterAppend(s[1..], x, keep);
    }
  }

  /** Counting one more occurrence of a listed key adds one to the sum. */
  lemma {:induction false} SumOverIncrement(keys: seq<string>, tf: map<string, nat>, t: string)
    requires forall k :: k in keys ==> k in tf
    requires Distinct(keys) && t in keys
    ensures SumOver(keys, tf[t := tf[t] + 1]) == SumOver(keys, tf) + 1
    decreases |keys|
  {
    var prefix := keys[..|keys| - 1];
    var last := keys[|keys| - 1];
    if last == t {
      assert t !in prefix;
      SumOverUnlisted(prefix, tf, t, tf[t] + 1);
    } else {
      assert t in prefix;
      SumOverIncrement(prefix, tf, t);
    }
  }

  /** Changing the count of a key that is not listed leaves the sum alone. */
  lemma {:induction false} SumOverUnlisted(keys: seq<string>, tf: map<string, nat>, t: string, v: nat)
    requires forall k :: k in keys ==> k in tf
    requires t !in keys
    ensures SumOver(keys, tf[t := v]) == SumOver(keys, tf)
    decreases |keys|
  {
    if keys != [] {
      SumOverUnlisted(keys[..|keys| - 1], tf, t, v);
    }
  }

  /** The counts of a vector add up to the number of non-empty terms counted. */
  lemma {:induction false} CountsSumToTerms(terms: seq<string>)
    ensures forall k :: k in KeysInOrder(terms) ==> k in TermFrequency(terms)
    ensures SumOver(KeysInOrder(terms), TermFrequency(terms)) == |NonEmptyTerms(terms)|
    decreases |terms|
  {
    KeysInOrderListsKeys(terms);
    if terms != [] {
      var prefix := terms[..|terms| - 1];
      var t := terms[|terms| - 1];
      CountsSumToTerms(prefix);
      KeysInOrderListsKeys(prefix);
      assert terms == prefix + [t];
      FilterAppend(prefix, t, (t: string) => t != "");
      assert NonEmptyTerms(terms) == NonEmptyTerms(prefix) + (if t != "" then [t] else []);
      if t != "" {
        CountOneMore(prefix, t);
      }
    }
  }

  /** Counting one more non-empty term adds one to the sum of the counts. */
  lemma CountOneMore(prefix: seq<string>, t: string)
    requires t != ""
    requires Distinct(KeysInOrder(prefix))
    requires forall k :: k in KeysInOrder(prefix) <==> k in TermFrequency(prefix)
    ensures forall k :: k in KeysInOrder(prefix + [t]) ==> k in TermFrequency(prefix + [t])
    ensures SumOver(KeysInOrder(prefix + [t]), TermFrequency(prefix + [t]))
              == SumOver(KeysInOrder(prefix), TermFrequency(prefix)) + 1
  {
    var tf := TermFrequency(prefix);
    var keys := KeysInOrder(prefix);
    var tf' := TermFrequency(prefix + [t]);
    var keys' := KeysInOrder(prefix + [t]);
    OneMoreTerm(prefix, t);
    if t in keys {
      assert keys' == keys && tf' == tf[t := tf[t] + 1];
      SumOverIncrement(keys, tf, t);
    } else {
      assert keys' == keys + [t] && tf' == tf[t := 1];
      SumOverNewKey(keys, tf, t);
    }
  }

  /** A key not yet listed, counted once, adds one to the sum. */
  lemma SumOverNewKey(keys: seq<string>, tf: map<string, nat>, t: string)
    requires forall k :: k in keys ==> k in tf
    requires t !in keys
    ensures forall k :: k in keys + [t] ==> k in tf[t := 1]
    ensures SumOver(keys + [t], tf[t := 1]) == SumOver(keys, tf) + 1
  {
    SumOverUnlisted(keys, tf, t, 1);
    assert (keys + [t])[..|keys|] == keys;
  }

  /** The keys and counts after one more non-empty term. */
  lemma OneMoreTerm(prefix: seq<string>, t: string)
    requires t != ""
    ensures KeysInOrder(prefix + [t]) == if t in KeysInOrder(prefix) then KeysInOrder(prefix) else KeysInOrder(prefix) + [t]
    ensures TermFrequency(prefix + [t])
              == TermFrequency(prefix)[t := (if t in TermFrequency(prefix) then TermFrequency(prefix)[t] else 0) + 1]
  {
    assert (prefix + [t])[..|prefix|] == prefix;
  }

  // ---------------------------------------------------------------------------
  // Best match
  // ---------------------------------------------------------------------------

  /** Scores below this do not answer. */
  const SimilarityThreshold: real := 0.5

  /**
   * The scan over the scores: the index of the best match so far (None while
   * no score has beaten the running maximum) and that maximum, which starts
   * at 0.0 and only moves on a strictly greater score.
   */
  function BestSoFar(scores: seq<real>): (best: (Option<nat>, real))
    ensures best.0.Some? ==> best.0.value < |scores| && best.1 == scores[best.0.value]
    decreases |scores|
  {
    if scores == [] then (None, 0.0)
    else
      var (index, max) := BestSoFar(scores[..|scores| - 1]);
      if scores[|scores| - 1] > max then (Some(|scores| - 1), scores[|scores| - 1]) else (index, max)
  }

  /** j holds the first strictly greatest score, and that score is positive. */
  predicate IsFirstBest(scores: seq<real>, j: nat) {
    && j < |scores| && scores[j] > 0.0
    && (forall k :: 0 <= k < j ==> scores[k] < scores[j])
    && (forall k :: j < k < |scores| ==> scores[k] <= scores[j])
  }

  /**
   * The scan picks the first strictly greatest score when some score is
   * positive, and nothing when none is: a score of 0 is never a match.
   */
  lemma {:induction false} BestIsFirstArgmax(scores: seq<real>)
    ensures BestSoFar(scores).0.Some? ==> IsFirstBest(scores, BestSoFar(scores).0.value)
    ensures BestSoFar(scores).0.None? <==> forall k :: 0 <= k < |scores| ==> scores[k] <= 0.0
    ensures BestSoFar(scores).0.None? ==> BestSoFar(scores).1 == 0.0
    decreases |scores|
  {
    if scores != [] {
      var prefix := scores[..|scores| - 1];
      BestIsFirstArgmax(prefix);
      assert forall k :: 0 <= k < |prefix| ==> prefix[k] == scores[k];
    }
  }

  /** The answer given for the scores of the entries, in table order. */
  function AnswerFor(entries: seq<Knowledge>, scores: seq<real>): (answer: Option<string>)
    requires |scores| == |entries|
    ensures answer.Some? ==> exists k :: 0 <= k < |entries| && entries[k].answer == answer.value
  {
    var best := BestSoFar(scores);
    if best.0.Some? && best.1 >= SimilarityThreshold then Some(entries[best.0.value].answer) else None
  }

  /**
   * The answer is that of the first entry whose score is strictly greatest,
   * when that score is at least 0.5; otherwise there is none.
   */
  lemma AnswerIsBestAboveThreshold(entries: seq<Knowledge>, scores: seq<real>)
    requires |scores| == |entries|
    ensures AnswerFor(entries, scores).Some? <==>
              exists j: nat :: IsFirstBest(scores, j) && scores[j] >= SimilarityThreshold
    ensures forall j: nat :: IsFirstBest(scores, j) && scores[j] >= SimilarityThreshold ==>
              AnswerFor(entries, scores) == Some(entries[j].answer)
  {
    BestIsFirstArgmax(scores);
    forall j: nat | IsFirstBest(scores, j)
      ensures BestSoFar(scores).0 == Some(j)
    {
      var b := BestSoFar(scores).0;
      assert b.Some?;
    }
  }

  class KnowledgeService {
    const repository: KnowledgeRepository
    /** Cosine similarity of two term-frequency vectors. */
    const similarity: (map<string, nat>, map<string, nat>) -> real

    constructor (repository: KnowledgeRepository, similarity: (map<string, nat>, map<string, nat>) -> real)
      ensures this.repository == repository && this.similarity == similarity
    {
      this.repository := repository;
      this.similarity := similarity;
    }

    /** The score of a stored question against the user's question. */
    function Score(userQuestion: string, k: Knowledge): real
      reads this
    {
      similarity(TermFrequency(Terms(userQuestion)), TermFrequency(Terms(k.question)))
    }

    /** The scores of the entries, in table order. */
    function Scores(userQuestion: string, entries: seq<Knowledge>): (scores: seq<real>)
      reads this
      ensures |scores| == |entries|
      ensures forall i :: 0 <= i < |entries| ==> scores[i] == Score(userQuestion, entries[i])
    {
      seq(|entries|, i requires 0 <= i < |entries| reads this => Score(userQuestion, entries[i]))
    }

    /**
     * findAnswerInKnowledgeBase(userQuestion): an empty table answers
     * nothing; otherwise the entries are scored in table order, the first
     * strictly greatest positive score wins, and its answer is returned
     * when that score is at least 0.5.
     */
    method FindAnswerInKnowledgeBase(userQuestion: string) returns (answer: Option<string>)
      ensures repository.entries == [] ==> answer.None?
      ensures answer == AnswerFor(repository.entries, Scores(userQuestion, repository.entries))
    {
      var allKnowledge := repository.entries;
      if |allKnowledge| == 0 {
        return None;
      }
      var userVector := ToTermFrequencyVector(userQuestion);
      ghost var scores := Scores(userQuestion, allKnowledge);
      var bestMatch: Option<Knowledge> := None;
      var maxSimilarity: real := 0.0;
      ghost var bestIndex: Option<nat> := None;
      for i := 0 to |allKnowledge|
        invariant BestSoFar(scores[..i]) == (bestIndex, maxSimilarity)
        invariant bestIndex.None? ==> bestMatch.None?
        invariant bestIndex.Some? ==> bestIndex.value < |allKnowledge| && bestMatch == Some(allKnowledge[bestIndex.value])
      {
        assert scores[..i + 1][..i] == scores[..i];
        var knowledge := allKnowledge[i];
        var knowledgeVector := ToTermFrequencyVector(knowledge.question);
        var score := similarity(userVector, knowledgeVector);
        assert score == scores[i];
        if score > maxSimilarity {
          maxSimilarity := score;
          bestMatch := Some(knowledge);
          bestIndex := Some(i);
        }
      }
      assert scores[..|allKnowledge|] == scores;
      if bestMatch.Some? && maxSimilarity >= SimilarityThreshold {
        return Some(bestMatch.value.answer);
      }
      return None;
    }
  }
}
