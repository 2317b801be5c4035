/**
 * The scripture loader for plain-text files: each file is cut into paragraphs at blank lines,
 * the long paragraphs among the first 500 become numbered passages, every passage is embedded
 * on its own, and the vectors go to the index in batches of 100.
 *
 * Reading a file is a parameter (`None` when it cannot be opened or read), the embedding
 * service is a function from the text sent to it to the embedding it returns (`None` when it
 * raises), and the index is a predicate saying which upsert batches it accepts.
 */
module LoadDataFixed {
  import opened Wrappers
  import opened Text
  import opened Batching

  /** A passage as the text loader builds it. */
  datatype Passage = Passage(book: string, text: string, chapter: Option<int>, verse: Option<int>)

  datatype Metadata = Metadata(book: string, chapter: Option<int>, verse: Option<int>, text: string)

  /** One record for the index: its id, its embedding and the passage's metadata. */
  datatype Vector = Vector(id: string, values: seq<real>, metadata: Metadata)

  /** A `.txt` file of the data directory: its stem and its content, if it could be read. */
  datatype TxtFile = TxtFile(stem: string, content: Option<string>)

  const ParagraphBreak := "\n\n"
  /** Only the first 500 paragraphs of a file are looked at. */
  const MaxParagraphs: nat := 500
  /** A paragraph becomes a passage when it is longer than this. */
  const MinTextLength: nat := 100
  /** The stored metadata keeps at most this many characters of the passage. */
  const StoredTextLength: nat := 1000
  const BatchSize: nat := 100

  /** The stripped pieces that are not blank, in order. */
  function NonBlank(pieces: seq<string>): (r: seq<string>)
    ensures |r| <= |pieces|
    ensures forall k :: 0 <= k < |r| ==> r[k] != []
  {
    if pieces == [] then []
    else
      var p := Strip(pieces[|pieces| - 1]);
      NonBlank(pieces[..|pieces| - 1]) + (if p != [] then [p] else [])
  }

  /** `[p.strip() for p in content.split('\n\n') if p.strip()]` */
  function Paragraphs(content: string): seq<string> {
    NonBlank(Split(content, ParagraphBreak))
  }

  /** Every kept paragraph is the strip of one of the pieces. */
  lemma {:induction false} NonBlankFrom(pieces: seq<string>, k: nat)
    requires k < |NonBlank(pieces)|
    ensures exists j :: 0 <= j < |pieces| && NonBlank(pieces)[k] == Strip(pieces[j])
    decreases |pieces|
  {
    var init := pieces[..|pieces| - 1];
    if k < |NonBlank(init)| {
      NonBlankFrom(init, k);
      var j :| 0 <= j < |init| && NonBlank(init)[k] == Strip(init[j]);
      assert pieces[j] == init[j];
    } else {
      assert NonBlank(pieces)[k] == Strip(pieces[|pieces| - 1]);
    }
  }

  /**
   * A paragraph is non-empty, has no whitespace border (stripping it again changes nothing),
   * and holds no blank-line break.
   */
  lemma ParagraphShape(content: string, k: nat)
    requires k < |Paragraphs(content)|
    ensures var p := Paragraphs(content)[k];
            p != [] && Strip(p) == p && !Contains(p, ParagraphBreak)
  {
    var pieces := Split(content, ParagraphBreak);
    var p := Paragraphs(content)[k];
    NonBlankFrom(pieces, k);
    var j :| 0 <= j < |pieces| && p == Strip(pieces[j]);
    SplitPiecesFree(content, ParagraphBreak, j);
    StripKeepsAbsence(pieces[j], ParagraphBreak);
    StripOfTrimmed(p);
  }

  /** A file with no blank line and not all whitespace is one paragraph: its stripped text. */
  lemma SingleParagraph(content: string)
    requires !Contains(content, ParagraphBreak) && !AllSpace(content)
    ensures Paragraphs(content) == [Strip(content)]
  {
    SplitWithoutSeparator(content, ParagraphBreak);
    StripEmptyIffAllSpace(content);
    assert Split(content, ParagraphBreak)[..0] == [];
  }

  /** The passages made from the first `n` paragraphs: the long ones, numbered from 1. */
  function PassagesOf(paragraphs: seq<string>, book: string, n: nat): (r: seq<Passage>)
    requires n <= |paragraphs|
    ensures |r| <= n
    decreases n
  {
    if n == 0 then []
    else
      var text := paragraphs[n - 1];
      PassagesOf(paragraphs, book, n - 1) +
        (if |text| > MinTextLength then [Passage(book, text, None, Some(n))] else [])
  }

  /** What `load_from_txt` returns for a file's content (`None`: the file could not be read). */
  function TxtPassages(content: Option<string>, book: string): seq<Passage> {
    match content
    case None => []
    case Some(c) =>
      var paragraphs := Paragraphs(c);
      PassagesOf(paragraphs, book, Min(|paragraphs|, MaxParagraphs))
  }

  /** `load_from_txt`: a failed read is logged and gives no passages. */
  method LoadFromTxt(content: Option<string>, book: string) returns (passages: seq<Passage>)
    ensures passages == TxtPassages(content, book)
  {
    passages := [];
    if content.None? {
      return;
    }
    var paragraphs := Paragraphs(content.value);
    var head := if |paragraphs| <= MaxParagraphs then paragraphs else paragraphs[..MaxParagraphs];
    for idx := 0 to |head|
      invariant passages == PassagesOf(paragraphs, book, idx)
    {
      var text := head[idx];
      if |text| > MinTextLength {
        passages := passages + [Passage(book, text, None, Some(idx + 1))];
      }
    }
  }

  /**
   * A passage comes from the first `n` paragraphs exactly when it is one of them that is longer
   * than 100 characters, carrying the book, no chapter and its paragraph number as verse.
   */
  lemma {:induction false} PassagesOfMembers(paragraphs: seq<string>, book: string, n: nat, p: Passage)
    requires n <= |paragraphs|
    ensures p in PassagesOf(paragraphs, book, n) <==>
            exists k :: 0 <= k < n && |paragraphs[k]| > MinTextLength &&
                        p == Passage(book, paragraphs[k], None, Some(k + 1))
    decreases n
  {
    if n > 0 {
      PassagesOfMembers(paragraphs, book, n - 1, p);
      var last := paragraphs[n - 1];
      if p == Passage(book, last, None, Some(n)) && |last| > MinTextLength {
        assert p in PassagesOf(paragraphs, book, n);
      }
    }
  }

  /**
   * Passages numbered by paragraph: each carries the book, no chapter, a verse within 1..n and
   * the text of paragraph `verse`, which is longer than 100 characters; verses strictly increase.
   */
  predicate Numbered(r: seq<Passage>, paragraphs: seq<string>, book: string, n: nat)
    requires n <= |paragraphs|
  {
    && (forall k :: 0 <= k < |r| ==>
          r[k].verse.Some? && 1 <= r[k].verse.value <= n && r[k].chapter.None? &&
          r[k].book == book && |r[k].text| > MinTextLength &&
          r[k].text == paragraphs[r[k].verse.value - 1])
    && (forall a, b :: 0 <= a < b < |r| ==> r[a].verse.value < r[b].verse.value)
  }

  /** The passages are numbered in strictly increasing order, each within 1..n, without chapter. */
  lemma {:induction false} PassagesOfOrdered(paragraphs: seq<string>, book: string, n: nat)
    requires n <= |paragraphs|
    ensures Numbered(PassagesOf(paragraphs, book, n), paragraphs, book, n)
    decreases n
  {
    if n > 0 {
      PassagesOfOrdered(paragraphs, book, n - 1);
      var init := PassagesOf(paragraphs, book, n - 1);
      var text := paragraphs[n - 1];
      var tail := if |text| > MinTextLength then [Passage(book, text, None, Some(n))] else [];
      var r := PassagesOf(paragraphs, book, n);
      assert r == init + tail;
      forall k | 0 <= k < |r|
        ensures r[k].verse.Some? && 1 <= r[k].verse.value <= n && r[k].chapter.None?
        ensures r[k].book == book && |r[k].text| > MinTextLength
        ensures r[k].text == paragraphs[r[k].verse.value - 1]
      {
        if k < |init| {
          assert r[k] == init[k];
        } else {
          assert r[k] == tail[0];
        }
      }
      forall a, b | 0 <= a < b < |r|
        ensures r[a].verse.value < r[b].verse.value
      {
        assert r[a] == init[a];
        if b < |init| {
          assert r[b] == init[b];
        } else {
          assert r[b] == tail[0];
        }
      }
    }
  }

  /**
   * What a text file yields: at most 500 passages, each a paragraph of more than 100
   * characters from the file, in file order, numbered by paragraph.
   */
  lemma TxtPassagesShape(content: Option<string>, book: string)
    ensures |TxtPassages(content, book)| <= MaxParagraphs
    ensures forall k :: 0 <= k < |TxtPassages(content, book)| ==>
              var p := TxtPassages(content, book)[k];
              |p.text| > MinTextLength && p.book == book && p.chapter.None? &&
              p.verse.Some? && 1 <= p.verse.value <= MaxParagraphs
    ensures forall a, b :: 0 <= a < b < |TxtPassages(content, book)| ==>
              TxtPassages(content, book)[a].verse.value < TxtPassages(content, book)[b].verse.value
    ensures content.None? ==> TxtPassages(content, book) == []
  {
    if content.Some? {
      var paragraphs := Paragraphs(content.value);
      var n := Min(|paragraphs|, MaxParagraphs);
      PassagesOfOrdered(paragraphs, book, n);
      assert TxtPassages(content, book) == PassagesOf(paragraphs, book, n);
    }
  }

  /** Every passage's text is one of the file's paragraphs, with the shape that implies. */
  lemma TxtPassageIsParagraph(content: string, book: string, k: nat)
    requires k < |TxtPassages(Some(content), book)|
    ensures var p := TxtPassages(Some(content), book)[k];
            && p.verse.Some? && 1 <= p.verse.value <= |Paragraphs(content)|
            && p.text == Paragraphs(content)[p.verse.value - 1]
            && Strip(p.text) == p.text && !Contains(p.text, ParagraphBreak)
  {
    var paragraphs := Paragraphs(content);
    var n := Min(|paragraphs|, MaxParagraphs);
    PassagesOfOrdered(paragraphs, book, n);
    var r := PassagesOf(paragraphs, book, n);
    assert TxtPassages(Some(content), book) == r;
    assert r[k].verse.Some? && 1 <= r[k].verse.value <= n;
    ParagraphShape(content, r[k].verse.value - 1);
  }

  /** `str()` of an optional integer, as an f-string writes it. */
  function PyStr(o: Option<int>): (r: string)
    ensures r != []
  {
    match o
    case None => "None"
    case Some(i) => IntToString(i)
  }

  lemma PyStrUnderscoreFree(o: Option<int>)
    ensures '_' !in PyStr(o)
  {
    if o.Some? {
      var i := o.value;
      var m: nat := if i < 0 then -i else i;
      var digits := NatToString(m);
      assert '_' !in digits by {
        forall j | 0 <= j < |digits| ensures digits[j] != '_' {
          assert IsDigit(digits[j]);
        }
      }
      if i < 0 {
        assert PyStr(o) == "-" + digits;
      }
    }
  }

  /** `f"{book}_{chapter}_{verse}"`: the keys are always present, so no default is used. */
  function VectorId(p: Passage): string {
    p.book + "_" + PyStr(p.chapter) + "_" + PyStr(p.verse)
  }

  /** Three fields joined by a character none of them holds split back into the three. */
  lemma SplitThree(a: string, b: string, c: string, sep: char)
    requires sep !in a && sep !in b && sep !in c
    ensures Split(a + [sep] + b + [sep] + c, [sep]) == [a, b, c]
  {
    assert a + [sep] + b + [sep] + c == a + [sep] + (b + [sep] + c);
    SplitAtChar(a, sep, b + [sep] + c);
    SplitAtChar(b, sep, c);
    CharFreeNotContains(c, sep);
    SplitWithoutSeparator(c, [sep]);
  }

  /**
   * When the book name has no underscore, the id splits back into book, chapter and verse, and
   * the verse number reads back: a text passage's id has "None" in the chapter place.
   */
  lemma IdRoundTrip(p: Passage)
    requires '_' !in p.book
    ensures var parts := Split(VectorId(p), "_");
            && parts == [p.book, PyStr(p.chapter), PyStr(p.verse)]
            && (p.chapter.None? ==> parts[1] == "None")
            && (p.verse.Some? ==> ParseInt(parts[2]) == p.verse)
  {
    PyStrUnderscoreFree(p.chapter);
    PyStrUnderscoreFree(p.verse);
    SplitThree(p.book, PyStr(p.chapter), PyStr(p.verse), '_');
    if p.verse.Some? {
      ParseIntOfIntToString(p.verse.value);
    }
  }

  /** `.replace("_", " ").replace("pg", "Scripture ").title()` on a file stem. */
  function BookName(stem: string): string {
    Title(Replace(Replace(stem, "_", " "), "pg", "Scripture "))
  }

  /** A book name never holds an underscore: the first step replaces them all. */
  lemma BookNameUnderscoreFree(stem: string)
    ensures '_' !in BookName(stem)
  {
    var spaced := Replace(stem, "_", " ");
    ReplaceRemovesChar(stem, '_', " ");
    forall k | 0 <= k < |Split(spaced, "pg")|
      ensures '_' !in Split(spaced, "pg")[k]
    {
      SplitPiecesCharFree(spaced, "pg", '_', k);
    }
    JoinFree(Split(spaced, "pg"), "Scripture ", '_');
    var named := Replace(spaced, "pg", "Scripture ");
    var t := Title(named);
    forall i | 0 <= i < |t|
      ensures t[i] != '_'
    {
      TitleFromKeepsUncased(named, false, i);
    }
  }

  /** Two passages of one text file never share an id, so no upsert overwrites another. */
  lemma TxtIdsDistinct(content: Option<string>, stem: string, a: nat, b: nat)
    requires a < b < |TxtPassages(content, BookName(stem))|
    ensures var r := TxtPassages(content, BookName(stem));
            VectorId(r[a]) != VectorId(r[b])
  {
    var r := TxtPassages(content, BookName(stem));
    TxtPassagesShape(content, BookName(stem));
    BookNameUnderscoreFree(stem);
    IdRoundTrip(r[a]);
    IdRoundTrip(r[b]);
  }

  /** `s[:n]` */
  function Truncate(s: string, n: nat): (r: string)
    ensures |r| == Min(|s|, n) && r == s[..|r|]
  {
    if |s| <= n then s else s[..n]
  }

  /**
   * One passage's vector, or `None` when the embedding service raises for it. The service is
   * given `"<book>: <text>"`; the metadata keeps the first 1000 characters of the text.
   */
  function Embedded(p: Passage, embed: string -> Option<seq<real>>): Option<Vector> {
    match embed(p.book + ": " + p.text)
    case None => None
    case Some(values) =>
      Some(Vector(VectorId(p), values, Metadata(p.book, p.chapter, p.verse, Truncate(p.text, StoredTextLength))))
  }

  /** What one passage adds to the vectors: its vector, or nothing when embedding fails. */
  function Emitted(p: Passage, embed: string -> Option<seq<real>>): (r: seq<Vector>)
    ensures |r| <= 1
  {
    match Embedded(p, embed)
    case Some(v) => [v]
    case None => []
  }

  /** The vectors of all passages whose embedding succeeds, in passage order. */
  function EmbedAll(passages: seq<Passage>, embed: string -> Option<seq<real>>): (r: seq<Vector>)
    ensures |r| <= |passages|
  {
    if passages == [] then []
    else EmbedAll(passages[..|passages| - 1], embed) + Emitted(passages[|passages| - 1], embed)
  }

  /** `generate_embeddings`: a passage whose embedding fails is logged and skipped. */
  method GenerateEmbeddings(passages: seq<Passage>, embed: string -> Option<seq<real>>)
    returns (vectors: seq<Vector>)
    ensures vectors == EmbedAll(passages, embed)
  {
    vectors := [];
    for i := 0 to |passages|
      invariant vectors == EmbedAll(passages[..i], embed)
    {
      var passage := passages[i];
      var result := embed(passage.book + ": " + passage.text);
      if result.Some? {
        var id := passage.book + "_" + PyStr(passage.chapter) + "_" + PyStr(passage.verse);
        var metadata := Metadata(passage.book, passage.chapter, passage.verse,
                                 Truncate(passage.text, StoredTextLength));
        vectors := vectors + [Vector(id, result.value, metadata)];
      }
      assert passages[..i + 1][..i] == passages[..i];
    }
    assert passages[..|passages|] == passages;
  }

  /** Embedding is passage by passage: the vectors of a concatenation are concatenated. */
  lemma {:induction false} EmbedAllAppend(a: seq<Passage>, b: seq<Passage>, embed: string -> Option<seq<real>>)
    ensures EmbedAll(a + b, embed) == EmbedAll(a, embed) + EmbedAll(b, embed)
    decreases |b|
  {
    if b == [] {
      assert a + b == a;
    } else {
      var init, last := b[..|b| - 1], b[|b| - 1];
      EmbedAllAppend(a, init, embed);
      DropLastAppend(a, b);
      assert EmbedAll(a + b, embed) == EmbedAll(a + init, embed) + Emitted(last, embed);
      assert EmbedAll(b, embed) == EmbedAll(init, embed) + Emitted(last, embed);
    }
  }

  /** A vector is produced exactly for the passages whose embedding succeeds. */
  lemma {:induction false} EmbedAllMembers(passages: seq<Passage>, embed: string -> Option<seq<real>>, v: Vector)
    ensures v in EmbedAll(passages, embed) <==>
            exists k :: 0 <= k < |passages| && Embedded(passages[k], embed) == Some(v)
    decreases |passages|
  {
    if passages != [] {
      var init, last := passages[..|passages| - 1], passages[|passages| - 1];
      EmbedAllMembers(init, embed, v);
      assert EmbedAll(passages, embed) == EmbedAll(init, embed) + Emitted(last, embed);
      assert v in Emitted(last, embed) <==> Embedded(last, embed) == Some(v);
      if v in EmbedAll(init, embed) {
        var k :| 0 <= k < |init| && Embedded(init[k], embed) == Some(v);
        assert passages[k] == init[k];
      } else if v in Emitted(last, embed) {
        assert Embedded(passages[|init|], embed) == Some(v);
      }
      if exists k :: 0 <= k < |passages| && Embedded(passages[k], embed) == Some(v) {
        var k :| 0 <= k < |passages| && Embedded(passages[k], embed) == Some(v);
        if k < |init| {
          assert init[k] == passages[k];
        } else {
          assert k == |init|;
        }
      }
    }
  }

  /** When the service never fails, every passage gets its vector, in the same position. */
  lemma {:induction false} EmbedAllComplete(passages: seq<Passage>, embed: string -> Option<seq<real>>)
    requires forall k :: 0 <= k < |passages| ==> Embedded(passages[k], embed).Some?
    ensures var r := EmbedAll(passages, embed);
            |r| == |passages| &&
            forall k :: 0 <= k < |r| ==> Some(r[k]) == Embedded(passages[k], embed)
    decreases |passages|
  {
    if passages != [] {
      var init, last := passages[..|passages| - 1], passages[|passages| - 1];
      assert forall k :: 0 <= k < |init| ==> init[k] == passages[k];
      EmbedAllComplete(init, embed);
      var r, ri := EmbedAll(passages, embed), EmbedAll(init, embed);
      assert r == ri + Emitted(last, embed);
      assert Emitted(last, embed) == [Embedded(last, embed).value];
      forall k | 0 <= k < |r|
        ensures Some(r[k]) == Embedded(passages[k], embed)
      {
        if k < |init| {
          assert r[k] == ri[k];
          assert passages[k] == init[k];
        }
      }
    }
  }

  /** Every stored text is a prefix of its passage of at most 1000 characters. */
  lemma StoredTextBound(passages: seq<Passage>, embed: string -> Option<seq<real>>, v: Vector)
    requires v in EmbedAll(passages, embed)
    ensures |v.metadata.text| <= StoredTextLength
    ensures exists k :: 0 <= k < |passages| && v.id == VectorId(passages[k]) &&
                        |v.metadata.text| <= |passages[k].text| &&
                        v.metadata.text == passages[k].text[..|v.metadata.text|]
  {
    EmbedAllMembers(passages, embed, v);
  }

  /** The upload's effect on the index: the batches before the first rejected one are stored. */
  predicate UploadOutcome(before: seq<seq<Vector>>, after: seq<seq<Vector>>, vectors: seq<Vector>,
                          accepts: seq<Vector> -> bool, ok: bool)
  {
    var batches := BatchesFrom(vectors, BatchSize, 0);
    var failure := FirstRejected(batches, accepts);
    && (ok <==> failure.None?)
    && (ok ==> after == before + batches)
    && (!ok ==> after == before + batches[..failure.value])
  }

  /**
   * A complete upload stores every vector exactly once, in order, in batches of at most 100 of
   * which only the last may be short.
   */
  lemma UploadCoversVectors(before: seq<seq<Vector>>, after: seq<seq<Vector>>, vectors: seq<Vector>,
                            accepts: seq<Vector> -> bool)
    requires UploadOutcome(before, after, vectors, accepts, true)
    ensures |before| <= |after| && Flatten(after[|before|..]) == vectors
    ensures forall k :: |before| <= k < |after| ==> 0 < |after[k]| <= BatchSize
  {
    Partition(vectors, BatchSize);
    assert after[|before|..] == BatchesFrom(vectors, BatchSize, 0);
  }

  /** The loader, holding what it has sent to the vector index. */
  class DataLoader {
    /** The upsert batches the index has accepted, in call order. */
    var upserted: seq<seq<Vector>>

    constructor ()
      ensures upserted == []
    {
      upserted := [];
    }

    /**
     * `upload_to_pinecone`: batches of 100 in order; a rejected upsert raises, which ends
     * the upload (and the whole load) with the later batches unsent.
     */
    method UploadToPinecone(vectors: seq<Vector>, accepts: seq<Vector> -> bool) returns (ok: bool)
      modifies this
      ensures UploadOutcome(old(upserted), upserted, vectors, accepts, ok)
    {
      var all := BatchesFrom(vectors, BatchSize, 0);
      ghost var done: seq<seq<Vector>> := [];
      var i: nat := 0;
      while i < |vectors|
        invariant done + BatchesFrom(vectors, BatchSize, i) == all
        invariant upserted == old(upserted) + done
        invariant AllOk(done, accepts)
        decreases |vectors| - i
      {
        var batch := vectors[i..Min(i + BatchSize, |vectors|)];
        BatchesStep(vectors, BatchSize, i);
        PrefixStep(all, done, batch, BatchesFrom(vectors, BatchSize, i + BatchSize));
        if !accepts(batch) {
          FirstRejectedAt(all, accepts, |done|);
          return false;
        }
        AllOkAppend(done, batch, accepts);
        upserted := upserted + [batch];
        done := done + [batch];
        i := i + BatchSize;
      }
      assert done == all;
      FirstRejectedNone(all, accepts);
      return true;
    }

    /**
     * `load_and_process_all` over the `.txt` files in directory order: nothing is embedded or
     * uploaded when no passage was loaded.
     */
    method LoadAndProcessAll(files: seq<TxtFile>, embed: string -> Option<seq<real>>,
                             accepts: seq<Vector> -> bool) returns (ok: bool)
      modifies this
      ensures AllTxtPassages(files) == [] ==> ok && upserted == old(upserted)
      ensures AllTxtPassages(files) != [] ==>
                UploadOutcome(old(upserted), upserted, EmbedAll(AllTxtPassages(files), embed), accepts, ok)
    {
      var allPassages := LoadTxtFiles(files);
      if |allPassages| > 0 {
        var vectors := GenerateEmbeddings(allPassages, embed);
        ok := UploadToPinecone(vectors, accepts);
      } else {
        ok := true;
      }
    }
  }

  /** The loop over the `.txt` files: each file's passages under the book name its stem gives. */
  method LoadTxtFiles(files: seq<TxtFile>) returns (allPassages: seq<Passage>)
    ensures allPassages == AllTxtPassages(files)
  {
    allPassages := [];
    for j := 0 to |files|
      invariant allPassages == AllTxtPassages(files[..j])
    {
      var book := BookName(files[j].stem);
      var passages := LoadFromTxt(files[j].content, book);
      allPassages := allPassages + passages;
      AllTxtPassagesStep(files, j);
    }
    assert files[..|files|] == files;
  }

  /** One file's passages, under the book name its stem gives. */
  function FilePassages(f: TxtFile): seq<Passage> {
    TxtPassages(f.content, BookName(f.stem))
  }

  /** The passages of all files, file after file. */
  function AllTxtPassages(files: seq<TxtFile>): seq<Passage> {
    if files == [] then []
    else AllTxtPassages(files[..|files| - 1]) + FilePassages(files[|files| - 1])
  }

  lemma AllTxtPassagesStep(files: seq<TxtFile>, j: nat)
    requires j < |files|
    ensures AllTxtPassages(files[..j + 1]) == AllTxtPassages(files[..j]) + FilePassages(files[j])
  {
    assert files[..j + 1][..j] == files[..j];
  }
}
