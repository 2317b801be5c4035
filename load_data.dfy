/**
 * The general scripture loader: the Bhagavad Gita JSON file first, then the `.txt` files, then
 * the `.csv` files; passages are embedded batch by batch and the vectors are upserted in
 * batches, a failed batch being logged and skipped.
 *
 * The parsed Gita file, the file listings, the CSV reader, the embedding service and the index
 * are parameters: `embed` gives the embedding of a passage's text or `None` when the service
 * raises, `accepts` says which upsert batches the index stores.
 */
module LoadData {
  import opened Wrappers
  import opened Text
  import opened Json
  import opened Batching
  import opened Gather
  import LoadDataFixed

  /** A passage dictionary: the Gita's `text` is whatever JSON value the file holds there. */
  datatype Passage = Passage(text: Json, book: string, chapter: Option<int>, verse: Option<int>,
                             source: Option<string>)

  datatype Metadata = Metadata(text: Json, book: string, chapter: Option<int>, verse: Option<int>,
                               source: string)

  datatype Vector = Vector(id: string, values: seq<real>, metadata: Metadata)

  /** One verse entry of the Gita file, with the keys of its chapter and of itself. */
  datatype Entry = Entry(chapterKey: string, verseKey: string, verseData: Json)

  const GitaBook := "Bhagavad Gita"
  /** The stored metadata keeps at most this many characters (or items) of the text. */
  const StoredTextLength: nat := 500
  const DefaultBatchSize: nat := 100

  const NotADict := "AttributeError: object has no attribute 'items'"
  const NoTxtLoader := "AttributeError: 'DataLoader' object has no attribute 'load_from_txt'"

  /** The `ValueError` that `int()` raises on a key that is not a numeral. */
  function IntError(key: string): string {
    "ValueError: invalid literal for int() with base 10: '" + key + "'"
  }

  /** `verse_data.get('text', verse_data.get('verse', ''))` */
  function VerseText(fields: seq<(string, Json)>): Json {
    Get(fields, "text").GetOr(Get(fields, "verse").GetOr(JStr("")))
  }

  /** `f'Bhagavad Gita, Chapter {chapter_num}, Verse {verse_num}'`, from the raw keys. */
  function GitaSource(chapterKey: string, verseKey: string): string {
    "Bhagavad Gita, Chapter " + chapterKey + ", Verse " + verseKey
  }

  /**
   * One verse entry: skipped (`Success(None)`) when it is not an object or its text is falsy,
   * otherwise its passage, unless `int()` rejects a key.
   */
  function VerseEntry(e: Entry): (r: Result<Option<Passage>, string>)
    ensures r.Success? && r.value.Some? ==>
              var p := r.value.value;
              && e.verseData.JObj? && Truthy(p.text) && p.text == VerseText(e.verseData.fields)
              && p.book == GitaBook && p.chapter == ParseInt(e.chapterKey) && p.chapter.Some?
              && p.verse == ParseInt(e.verseKey) && p.verse.Some?
              && p.source == Some(GitaSource(e.chapterKey, e.verseKey))
    ensures r.Failure? <==>
              e.verseData.JObj? && Truthy(VerseText(e.verseData.fields)) &&
              (ParseInt(e.chapterKey).None? || ParseInt(e.verseKey).None?)
  {
    if !e.verseData.JObj? then Success(None)
    else
      var text := VerseText(e.verseData.fields);
      if !Truthy(text) then Success(None)
      else match (ParseInt(e.chapterKey), ParseInt(e.verseKey))
        case (None, _) => Failure(IntError(e.chapterKey))
        case (_, None) => Failure(IntError(e.verseKey))
        case (Some(c), Some(v)) =>
          Success(Some(Passage(text, GitaBook, Some(c), Some(v), Some(GitaSource(e.chapterKey, e.verseKey)))))
  }

  /** The entries of one chapter object, in order. */
  function ChapterEntries(chapterKey: string, verses: seq<(string, Json)>): (r: seq<Entry>)
    ensures |r| == |verses|
  {
    if verses == [] then []
    else
      var init := ChapterEntries(chapterKey, verses[..|verses| - 1]);
      var last := verses[|verses| - 1];
      init + [Entry(chapterKey, last.0, last.1)]
  }

  /** The verse entries of one chapter: none when its value is not an object. */
  function ChapterPart(chapter: (string, Json)): seq<Entry> {
    if chapter.1.JObj? then ChapterEntries(chapter.0, chapter.1.fields) else []
  }

  /** The verse entries of the whole file, chapter by chapter. */
  function EntriesOf(chapters: seq<(string, Json)>): seq<Entry> {
    FlatMap(chapters, ChapterPart)
  }

  /** What `load_bhagavad_gita` returns for the parsed file, or the error it raises. */
  function GitaPassages(data: Json): Result<seq<Passage>, string> {
    if !data.JObj? then Failure(NotADict) else Collect(EntriesOf(data.fields), VerseEntry)
  }

  lemma ChapterEntriesStep(chapterKey: string, verses: seq<(string, Json)>, j: nat)
    requires j < |verses|
    ensures ChapterEntries(chapterKey, verses[..j + 1]) ==
            ChapterEntries(chapterKey, verses[..j]) + [Entry(chapterKey, verses[j].0, verses[j].1)]
  {
    assert verses[..j + 1][..j] == verses[..j];
  }

  /** The entries of the first `n` verses of a chapter begin the entries of the chapter. */
  lemma {:induction false} ChapterEntriesPrefix(chapterKey: string, verses: seq<(string, Json)>, n: nat)
    requires n <= |verses|
    ensures ChapterEntries(chapterKey, verses)[..n] == ChapterEntries(chapterKey, verses[..n])
    decreases |verses| - n
  {
    if n < |verses| {
      ChapterEntriesPrefix(chapterKey, verses, n + 1);
      ChapterEntriesStep(chapterKey, verses, n);
      assert ChapterEntries(chapterKey, verses)[..n] == ChapterEntries(chapterKey, verses)[..n + 1][..n];
    } else {
      assert verses[..n] == verses;
    }
  }

  /** `load_bhagavad_gita` on the parsed file: two nested loops over chapters and verses. */
  method LoadBhagavadGita(data: Json) returns (r: Result<seq<Passage>, string>)
    ensures r == GitaPassages(data)
  {
    if !data.JObj? {
      return Failure(NotADict);
    }
    var chapters := data.fields;
    var passages: seq<Passage> := [];
    ghost var seen: seq<Entry> := [];
    for i := 0 to |chapters|
      invariant seen == EntriesOf(chapters[..i])
      invariant Collect(seen, VerseEntry) == Success(passages)
    {
      var (chapterKey, chapterData) := chapters[i];
      FlatMapStep(chapters, i, ChapterPart);
      if chapterData.JObj? {
        var verses := chapterData.fields;
        ghost var before := seen;
        for j := 0 to |verses|
          invariant seen == before + ChapterEntries(chapterKey, verses[..j])
          invariant Collect(seen, VerseEntry) == Success(passages)
        {
          var e := Entry(chapterKey, verses[j].0, verses[j].1);
          var outcome := VerseEntry(e);
          if outcome.Failure? {
            CollectFailureStays(chapters, i, verses, j, before, seen, passages, VerseEntry);
            return Failure(outcome.error);
          }
          VerseStep(before, chapterKey, verses, j, seen, passages, VerseEntry);
          if outcome.value.Some? {
            passages := passages + [outcome.value.value];
          }
          seen := seen + [e];
        }
        assert verses[..|verses|] == verses;
      }
    }
    assert chapters[..|chapters|] == chapters;
    r := Success(passages);
  }

  /** A verse that does not fail adds its entry, and its passage when it has one. */
  lemma VerseStep(before: seq<Entry>, chapterKey: string, verses: seq<(string, Json)>, j: nat,
                  seen: seq<Entry>, passages: seq<Passage>, g: Entry -> Result<Option<Passage>, string>)
    requires j < |verses| && seen == before + ChapterEntries(chapterKey, verses[..j])
    requires Collect(seen, g) == Success(passages)
    requires g(Entry(chapterKey, verses[j].0, verses[j].1)).Success?
    ensures var e := Entry(chapterKey, verses[j].0, verses[j].1);
            && seen + [e] == before + ChapterEntries(chapterKey, verses[..j + 1])
            && Collect(seen + [e], g) ==
               Success(if g(e).value.Some? then passages + [g(e).value.value] else passages)
  {
    var e := Entry(chapterKey, verses[j].0, verses[j].1);
    CollectStep(seen, e, g);
    ChapterEntriesStep(chapterKey, verses, j);
  }

  /** A failing entry is followed, in the file, by the rest of its chapter and later chapters. */
  lemma CollectFailureStays(chapters: seq<(string, Json)>, i: nat, verses: seq<(string, Json)>, j: nat,
                            before: seq<Entry>, seen: seq<Entry>, passages: seq<Passage>,
                            g: Entry -> Result<Option<Passage>, string>)
    requires i < |chapters| && chapters[i].1.JObj? && verses == chapters[i].1.fields && j < |verses|
    requires before == EntriesOf(chapters[..i])
    requires seen == before + ChapterEntries(chapters[i].0, verses[..j])
    requires Collect(seen, g) == Success(passages)
    requires g(Entry(chapters[i].0, verses[j].0, verses[j].1)).Failure?
    ensures Collect(EntriesOf(chapters), g) ==
            Failure(g(Entry(chapters[i].0, verses[j].0, verses[j].1)).error)
  {
    var e := Entry(chapters[i].0, verses[j].0, verses[j].1);
    CollectStep(seen, e, g);
    ChapterEntriesStep(chapters[i].0, verses, j);
    ChapterEntriesPrefix(chapters[i].0, verses, j + 1);
    var head := ChapterEntries(chapters[i].0, verses[..j + 1]);
    assert before + head == seen + [e];
    CollectFailureWithin(chapters, i, head, ChapterPart, g);
  }

  /**
   * Every Gita passage is a book "Bhagavad Gita" passage with a truthy text and numeric chapter
   * and verse whose source names the keys they were read from.
   */
  lemma GitaShape(data: Json, ps: seq<Passage>, k: nat)
    requires GitaPassages(data) == Success(ps) && k < |ps|
    ensures ps[k].book == GitaBook && Truthy(ps[k].text)
    ensures ps[k].chapter.Some? && ps[k].verse.Some? && ps[k].source.Some?
    ensures exists e :: e in EntriesOf(data.fields) &&
              ps[k].source == Some(GitaSource(e.chapterKey, e.verseKey)) &&
              ps[k].chapter == ParseInt(e.chapterKey) && ps[k].verse == ParseInt(e.verseKey)
  {
    var entries := EntriesOf(data.fields);
    CollectMembers(entries, VerseEntry, ps, ps[k]);
    var i :| 0 <= i < |entries| && VerseEntry(entries[i]) == Success(Some(ps[k]));
    assert entries[i] in entries;
  }

  /** A chapter whose value is not an object contributes nothing. */
  lemma NonDictChapterSkipped(chapters: seq<(string, Json)>, key: string, value: Json)
    requires !value.JObj?
    ensures EntriesOf(chapters + [(key, value)]) == EntriesOf(chapters)
  {
    DropLastAppend(chapters, [(key, value)]);
  }

  /** `str(x)[:n]` slicing of the passage text: strings and lists slice, anything else raises. */
  function Truncated(text: Json, n: nat): (r: Option<Json>)
    ensures r.Some? <==> text.JStr? || text.JArr?
    ensures r.Some? && text.JStr? ==> r.value.JStr? && |r.value.s| <= n
  {
    match text
    case JStr(s) => Some(JStr(LoadDataFixed.Truncate(s, n)))
    case JArr(items) => Some(JArr(items[..Min(|items|, n)]))
    case _ => None
  }

  /** `f"{book}_{chapter}_{verse}_{i}"` with `i` the start of the passage's batch. */
  function VectorId(p: Passage, offset: nat): string {
    p.book + "_" + LoadDataFixed.PyStr(p.chapter) + "_" + LoadDataFixed.PyStr(p.verse) + "_" + NatToString(offset)
  }

  /**
   * One passage's vector, or `None` when any step of the `try` raises: the embedding call,
   * slicing a text that is neither a string nor a list, or a passage without `source`.
   */
  function TryVector(p: Passage, offset: nat, embed: Json -> Option<seq<real>>): Option<Vector> {
    match embed(p.text)
    case None => None
    case Some(values) =>
      match Truncated(p.text, StoredTextLength)
      case None => None
      case Some(stored) =>
        match p.source
        case None => None
        case Some(source) =>
          Some(Vector(VectorId(p, offset), values, Metadata(stored, p.book, p.chapter, p.verse, source)))
  }

  /** The per-passage step of `generate_embeddings` for a given embedding service. */
  function Attempt(embed: Json -> Option<seq<real>>): (Passage, nat) -> Option<Vector> {
    (p: Passage, offset: nat) => TryVector(p, offset, embed)
  }

  /** What `generate_embeddings` returns: the vectors of each batch of `size` passages in turn. */
  function Embeddings(passages: seq<Passage>, size: nat, embed: Json -> Option<seq<real>>): seq<Vector>
    requires size > 0
  {
    TriedFrom(passages, size, 0, Attempt(embed))
  }

  /** The body of the `try` for one passage of the batch starting at `offset`. */
  method TryPassage(passage: Passage, offset: nat, embed: Json -> Option<seq<real>>) returns (r: Option<Vector>)
    ensures r == TryVector(passage, offset, embed)
  {
    var result := embed(passage.text);
    if result.None? {
      return None;
    }
    var stored := Truncated(passage.text, StoredTextLength);
    if stored.None? || passage.source.None? {
      return None;
    }
    var metadata := Metadata(stored.value, passage.book, passage.chapter, passage.verse, passage.source.value);
    r := Some(Vector(VectorId(passage, offset), result.value, metadata));
  }

  /** The inner loop of `generate_embeddings`: the vectors of one batch, in order. */
  method EmbedBatch(batch: seq<Passage>, offset: nat, embed: Json -> Option<seq<real>>) returns (vectors: seq<Vector>)
    ensures vectors == Tried(batch, offset, Attempt(embed))
  {
    vectors := [];
    for j := 0 to |batch|
      invariant vectors == Tried(batch[..j], offset, Attempt(embed))
    {
      TriedStep(batch, j, offset, Attempt(embed));
      var vector := TryPassage(batch[j], offset, embed);
      assert Attempt(embed)(batch[j], offset) == vector;
      if vector.Some? {
        vectors := vectors + [vector.value];
      }
    }
    assert batch[..|batch|] == batch;
  }

  /**
   * `generate_embeddings`: batches of `batchSize` passages; every passage of a batch is tried
   * and those that raise are logged and skipped.
   */
  method GenerateEmbeddings(passages: seq<Passage>, batchSize: nat, embed: Json -> Option<seq<real>>)
    returns (vectors: seq<Vector>)
    requires batchSize > 0
    ensures vectors == Embeddings(passages, batchSize, embed)
  {
    vectors := [];
    var i: nat := 0;
    while i < |passages|
      invariant vectors + TriedFrom(passages, batchSize, i, Attempt(embed)) == Embeddings(passages, batchSize, embed)
      decreases |passages| - i
    {
      var batch := passages[i..Min(i + batchSize, |passages|)];
      TriedFromStep(passages, batchSize, i, Attempt(embed));
      var batchVectors := EmbedBatch(batch, i, embed);
      AppendAssoc(vectors, batchVectors, TriedFrom(passages, batchSize, i + batchSize, Attempt(embed)));
      vectors := vectors + batchVectors;
      i := i + batchSize;
    }
  }

  /**
   * Every vector is the vector of one passage, and its id carries the start of that passage's
   * batch: a batch start `i` with `i <= k < i + size` for the passage's index `k`.
   */
  lemma EmbeddingsMembers(passages: seq<Passage>, size: nat, embed: Json -> Option<seq<real>>, v: Vector)
    requires size > 0 && v in Embeddings(passages, size, embed)
    ensures exists k, i :: 0 <= i <= k < |passages| && k < i + size && BatchStart(i, size) &&
                           TryVector(passages[k], i, embed) == Some(v)
  {
    TriedFromMembers(passages, size, 0, Attempt(embed), v);
    var k, i :| 0 <= i <= k < |passages| && k < i + size && BatchStart(i, size) &&
                Attempt(embed)(passages[k], i) == Some(v);
    assert TryVector(passages[k], i, embed) == Some(v);
  }

  /** A vector's id and metadata are those of its passage; a stored string keeps at most 500 characters. */
  lemma VectorOfPassage(passages: seq<Passage>, size: nat, embed: Json -> Option<seq<real>>, v: Vector)
    requires size > 0 && v in Embeddings(passages, size, embed)
    ensures exists k, i :: 0 <= i <= k < |passages| && k < i + size &&
              v.id == VectorId(passages[k], i) && embed(passages[k].text) == Some(v.values) &&
              v.metadata.book == passages[k].book && v.metadata.chapter == passages[k].chapter &&
              v.metadata.verse == passages[k].verse && Some(v.metadata.source) == passages[k].source
    ensures v.metadata.text.JStr? ==> |v.metadata.text.s| <= StoredTextLength
  {
    EmbeddingsMembers(passages, size, embed, v);
  }

  /** Passages without a `source` (the text loader's) never produce a vector. */
  lemma SourcelessNeverEmbedded(passages: seq<Passage>, size: nat, embed: Json -> Option<seq<real>>)
    requires size > 0
    requires forall k :: 0 <= k < |passages| ==> passages[k].source.None?
    ensures Embeddings(passages, size, embed) == []
  {
    assert NeverGives(passages, Attempt(embed));
    TriedFromNone(passages, size, 0, Attempt(embed));
  }

  /** `load_from_csv` is not modelled: it is given as the passages it returns for a book. */
  function CsvBookName(stem: string): string {
    Title(Replace(stem, "_", " "))
  }

  function CsvPassages(stems: seq<string>, loadCsv: string -> seq<Passage>): seq<Passage> {
    if stems == [] then []
    else CsvPassages(stems[..|stems| - 1], loadCsv) + loadCsv(CsvBookName(stems[|stems| - 1]))
  }

  /** A text-file passage as the passage dictionary of this loader: it has no `source`. */
  function FromTxt(p: LoadDataFixed.Passage): Passage {
    Passage(JStr(p.text), p.book, p.chapter, p.verse, None)
  }

  function FromTxtAll(ps: seq<LoadDataFixed.Passage>): (r: seq<Passage>)
    ensures |r| == |ps|
    ensures forall k :: 0 <= k < |r| ==> r[k] == FromTxt(ps[k]) && r[k].source.None?
  {
    seq(|ps|, k requires 0 <= k < |ps| => FromTxt(ps[k]))
  }

  /** The Gita step: no file gives no passages. */
  function GitaStep(gita: Option<Json>): Result<seq<Passage>, string> {
    match gita
    case None => Success([])
    case Some(data) => GitaPassages(data)
  }

  /**
   * The passages `load_and_process_all` collects as written: the Gita's, then, when there is any
   * `.txt` file, the `AttributeError` of calling the missing `load_from_txt`, else the CSVs'.
   */
  function LoadedPassages(gita: Option<Json>, txtFiles: seq<LoadDataFixed.TxtFile>, csvStems: seq<string>,
                          loadCsv: string -> seq<Passage>): Result<seq<Passage>, string>
  {
    match GitaStep(gita)
    case Failure(err) => Failure(err)
    case Success(g) =>
      if txtFiles != [] then Failure(NoTxtLoader)
      else Success(g + CsvPassages(csvStems, loadCsv))
  }

  /** The passages collected when the text loader is a method of the loader, as intended. */
  function CorrectedPassages(gita: Option<Json>, txtFiles: seq<LoadDataFixed.TxtFile>, csvStems: seq<string>,
                             loadCsv: string -> seq<Passage>): Result<seq<Passage>, string>
  {
    match GitaStep(gita)
    case Failure(err) => Failure(err)
    case Success(g) =>
      Success(g + FromTxtAll(LoadDataFixed.AllTxtPassages(txtFiles)) + CsvPassages(csvStems, loadCsv))
  }

  /** Both readings stop with the Gita loader's error when it raises. */
  lemma GitaFailureStops(gita: Option<Json>, txtFiles: seq<LoadDataFixed.TxtFile>, csvStems: seq<string>,
                         loadCsv: string -> seq<Passage>)
    requires GitaStep(gita).Failure?
    ensures LoadedPassages(gita, txtFiles, csvStems, loadCsv) == Failure(GitaStep(gita).error)
    ensures CorrectedPassages(gita, txtFiles, csvStems, loadCsv) == Failure(GitaStep(gita).error)
  {
  }

  /** After a Gita step that gives `g`, what each reading collects. */
  lemma AfterGita(gita: Option<Json>, g: seq<Passage>, txtFiles: seq<LoadDataFixed.TxtFile>,
                  csvStems: seq<string>, loadCsv: string -> seq<Passage>)
    requires GitaStep(gita) == Success(g)
    ensures LoadedPassages(gita, txtFiles, csvStems, loadCsv) ==
            if txtFiles != [] then Failure(NoTxtLoader) else Success(g + CsvPassages(csvStems, loadCsv))
    ensures CorrectedPassages(gita, txtFiles, csvStems, loadCsv) ==
            Success(g + FromTxtAll(LoadDataFixed.AllTxtPassages(txtFiles)) + CsvPassages(csvStems, loadCsv))
  {
  }

  /**
   * As written, any `.txt` file makes the whole run fail before anything is embedded; with the
   * text loader in place the run goes on, and its passages are the Gita's, the text files' and
   * the CSVs', in that order.
   */
  lemma TxtFileAbortsLoad(gita: Option<Json>, txtFiles: seq<LoadDataFixed.TxtFile>, csvStems: seq<string>,
                          loadCsv: string -> seq<Passage>)
    requires txtFiles != [] && GitaStep(gita).Success?
    ensures LoadedPassages(gita, txtFiles, csvStems, loadCsv) == Failure(NoTxtLoader)
    ensures var r := CorrectedPassages(gita, txtFiles, csvStems, loadCsv);
            var g, t := GitaStep(gita).value, LoadDataFixed.AllTxtPassages(txtFiles);
            && r.Success? && |r.value| == |g| + |t| + |CsvPassages(csvStems, loadCsv)|
            && r.value[..|g|] == g && r.value[|g|..|g| + |t|] == FromTxtAll(t)
  {
    var g, t := GitaStep(gita).value, LoadDataFixed.AllTxtPassages(txtFiles);
    AfterGita(gita, g, txtFiles, csvStems, loadCsv);
    ConcatParts(g, FromTxtAll(t), CsvPassages(csvStems, loadCsv));
  }

  /** Without `.txt` files both readings agree. */
  lemma NoTxtAgrees(gita: Option<Json>, csvStems: seq<string>, loadCsv: string -> seq<Passage>)
    ensures LoadedPassages(gita, [], csvStems, loadCsv) == CorrectedPassages(gita, [], csvStems, loadCsv)
  {
    if GitaStep(gita).Failure? {
      GitaFailureStops(gita, [], csvStems, loadCsv);
    } else {
      var g := GitaStep(gita).value;
      AfterGita(gita, g, [], csvStems, loadCsv);
      assert FromTxtAll(LoadDataFixed.AllTxtPassages([])) == [];
      assert g + [] == g;
    }
  }

  /** The loader, holding what it has sent to the vector index. */
  class DataLoader {
    /** The upsert batches the index has accepted, in call order. */
    var upserted: seq<seq<Vector>>

    constructor ()
      ensures upserted == []
    {
      upserted := [];
    }

    /** `upload_to_pinecone`: a batch the index rejects is logged and the next one is tried. */
    method UploadToPinecone(vectors: seq<Vector>, batchSize: nat, accepts: seq<Vector> -> bool)
      requires batchSize > 0
      modifies this
      ensures upserted == old(upserted) + Kept(BatchesFrom(vectors, batchSize, 0), accepts)
    {
      var all := BatchesFrom(vectors, batchSize, 0);
      ghost var done: seq<seq<Vector>> := [];
      var i: nat := 0;
      while i < |vectors|
        invariant done + BatchesFrom(vectors, batchSize, i) == all
        invariant upserted == old(upserted) + Kept(done, accepts)
        decreases |vectors| - i
      {
        var batch := vectors[i..Min(i + batchSize, |vectors|)];
        BatchesStep(vectors, batchSize, i);
        PrefixStep(all, done, batch, BatchesFrom(vectors, batchSize, i + batchSize));
        var accepted := accepts(batch);
        KeptStep(old(upserted), done, batch, accepts, accepted);
        if accepted {
          upserted := upserted + [batch];
        }
        done := done + [batch];
        i := i + batchSize;
      }
      assert done == all;
    }

    /** The embedding and upload step shared by both readings of `load_and_process_all`. */
    method EmbedAndUpload(passages: seq<Passage>, embed: Json -> Option<seq<real>>,
                          accepts: seq<Vector> -> bool)
      modifies this
      ensures upserted == old(upserted) + Stored(passages, embed, accepts)
    {
      var vectors := GenerateEmbeddings(passages, DefaultBatchSize, embed);
      UploadToPinecone(vectors, DefaultBatchSize, accepts);
    }

    /**
     * `load_and_process_all` as written: the Gita file, then the `.txt` files (whose loader is
     * missing), then the `.csv` files; embedding and upload run even when nothing was loaded.
     */
    method LoadAndProcessAll(gita: Option<Json>, txtFiles: seq<LoadDataFixed.TxtFile>,
                             csvStems: seq<string>, loadCsv: string -> seq<Passage>,
                             embed: Json -> Option<seq<real>>, accepts: seq<Vector> -> bool)
      returns (r: Result<seq<Passage>, string>)
      modifies this
      ensures r == LoadedPassages(gita, txtFiles, csvStems, loadCsv)
      ensures r.Failure? ==> upserted == old(upserted)
      ensures r.Success? ==> upserted == old(upserted) + Stored(r.value, embed, accepts)
    {
      var allPassages: seq<Passage> := [];
      if gita.Some? {
        var loaded := LoadBhagavadGita(gita.value);
        if loaded.Failure? {
          GitaFailureStops(gita, txtFiles, csvStems, loadCsv);
          return Failure(loaded.error);
        }
        allPassages := allPassages + loaded.value;
        assert allPassages == loaded.value;
      }
      AfterGita(gita, allPassages, txtFiles, csvStems, loadCsv);
      if txtFiles != [] {
        return Failure(NoTxtLoader);
      }
      var csv := LoadCsvFiles(csvStems, loadCsv);
      allPassages := allPassages + csv;
      EmbedAndUpload(allPassages, embed, accepts);
      return Success(allPassages);
    }

    /** `load_and_process_all` with `load_from_txt` available to it, as evidently intended. */
    method LoadAndProcessAllCorrected(gita: Option<Json>, txtFiles: seq<LoadDataFixed.TxtFile>,
                                      csvStems: seq<string>, loadCsv: string -> seq<Passage>,
                                      embed: Json -> Option<seq<real>>, accepts: seq<Vector> -> bool)
      returns (r: Result<seq<Passage>, string>)
      modifies this
      ensures r == CorrectedPassages(gita, txtFiles, csvStems, loadCsv)
      ensures r.Failure? ==> upserted == old(upserted)
      ensures r.Success? ==> upserted == old(upserted) + Stored(r.value, embed, accepts)
    {
      var allPassages: seq<Passage> := [];
      if gita.Some? {
        var loaded := LoadBhagavadGita(gita.value);
        if loaded.Failure? {
          GitaFailureStops(gita, txtFiles, csvStems, loadCsv);
          return Failure(loaded.error);
        }
        allPassages := allPassages + loaded.value;
        assert allPassages == loaded.value;
      }
      AfterGita(gita, allPassages, txtFiles, csvStems, loadCsv);
      var txt := LoadDataFixed.LoadTxtFiles(txtFiles);
      allPassages := allPassages + FromTxtAll(txt);
      var csv := LoadCsvFiles(csvStems, loadCsv);
      allPassages := allPassages + csv;
      EmbedAndUpload(allPassages, embed, accepts);
      return Success(allPassages);
    }
  }

  /** The `.csv` loop: each file's passages under the book name its stem gives. */
  method LoadCsvFiles(stems: seq<string>, loadCsv: string -> seq<Passage>) returns (passages: seq<Passage>)
    ensures passages == CsvPassages(stems, loadCsv)
  {
    passages := [];
    for j := 0 to |stems|
      invariant passages == CsvPassages(stems[..j], loadCsv)
    {
      passages := passages + loadCsv(CsvBookName(stems[j]));
      assert stems[..j + 1][..j] == stems[..j];
    }
    assert stems[..|stems|] == stems;
  }

  /** The batches the index stores for a list of passages. */
  function Stored(passages: seq<Passage>, embed: Json -> Option<seq<real>>, accepts: seq<Vector> -> bool): seq<seq<Vector>> {
    Kept(BatchesFrom(Embeddings(passages, DefaultBatchSize, embed), DefaultBatchSize, 0), accepts)
  }

  /**
   * The upload stores exactly the batches the index accepts, each of at most 100 vectors; a
   * rejected batch does not stop the later ones.
   */
  lemma StoredBatches(passages: seq<Passage>, embed: Json -> Option<seq<real>>, accepts: seq<Vector> -> bool,
                      b: seq<Vector>)
    ensures b in Stored(passages, embed, accepts) <==>
            b in BatchesFrom(Embeddings(passages, DefaultBatchSize, embed), DefaultBatchSize, 0) && accepts(b)
    ensures b in Stored(passages, embed, accepts) ==> 0 < |b| <= DefaultBatchSize
  {
    KeptMembers(BatchesFrom(Embeddings(passages, DefaultBatchSize, embed), DefaultBatchSize, 0), accepts, b);
  }
}
