/** The announcement poller: each cycle takes the latest batch of exchange
    announcements, walks it oldest first, skips every announcement whose PDF
    has already been analysed, and stores a merged analysis record for each
    new one whose text could be extracted and analysed. */
module Polling {
  import opened Wrappers
  import opened JsText
  import opened AnalysisModel

  /** One element of the announcement feed: the symbol, the company name,
      the announcement time and the PDF attachment's URL. */
  datatype Announcement = Announcement(sm_symbol_dtl: Field, sm_name: Field, an_dt: Field, attchmnt_dtl: Field)

  /** The parsed answer of the analysis service. */
  datatype AiAnalysis = AiAnalysis(summary: Field, sentiment: Field, classification: Field, reasoning: Field)

  /** `extractTextFromPdf(pdfPath)`: the extracted text; `None` or "" when
      nothing could be extracted. */
  type Extractor = Field -> Field

  /** `analyzeNews(text)`: the parsed analysis, or `None` (`null`). */
  type Analyzer = string -> Option<AiAnalysis>

  /** What happened to one announcement; each is one log line of the loop. */
  datatype ItemOutcome =
    | AlreadyStored
    | NoText
    | NoAnalysis
    | Saved
    | SaveFailed

  /** `new Analysis({ symbol, company_name, announcement_time,
      source_pdf_url, ...analysisResult })`: the announcement's four fields
      with the analysis fields after them. */
  function MergedDraft(a: Announcement, ai: AiAnalysis): AnalysisDraft {
    AnalysisDraft(None, a.sm_symbol_dtl, a.sm_name, a.an_dt, ai.summary, ai.sentiment, ai.classification,
                  ai.reasoning, a.attchmnt_dtl)
  }

  /** The collection after one announcement, and its outcome. */
  datatype Step = Step(records: map<string, Analysis>, outcome: ItemOutcome)

  /** The loop body for one announcement. A failed save throws, which the
      loop's `catch` absorbs: the collection is left as it was. */
  function ProcessItem(records: map<string, Analysis>, a: Announcement, extract: Extractor, analyze: Analyzer): Step {
    if a.attchmnt_dtl.Some? && a.attchmnt_dtl.value in records then
      Step(records, AlreadyStored)
    else
      var text := extract(a.attchmnt_dtl);
      if !Truthy(text) then Step(records, NoText)
      else
        match analyze(text.value)
        case None => Step(records, NoAnalysis)
        case Some(ai) =>
          match SaveDraft(records, MergedDraft(a, ai))
          case None => Step(records, SaveFailed)
          case Some(r) => Step(r, Saved)
  }

  /** The collection after a stretch of announcements, and one outcome per
      announcement. */
  datatype Cycle = Cycle(records: map<string, Analysis>, log: seq<ItemOutcome>)

  /** The `for` loop over a batch, in the order given. */
  function ProcessBatch(records: map<string, Analysis>, batch: seq<Announcement>,
                        extract: Extractor, analyze: Analyzer): (c: Cycle)
    ensures |c.log| == |batch|
  {
    if batch == [] then Cycle(records, [])
    else
      var before := ProcessBatch(records, batch[..|batch| - 1], extract, analyze);
      var s := ProcessItem(before.records, batch[|batch| - 1], extract, analyze);
      Cycle(s.records, before.log + [s.outcome])
  }

  /** `array.reverse()`. */
  function Reversed<T>(s: seq<T>): (r: seq<T>)
    ensures |r| == |s|
  {
    seq(|s|, i requires 0 <= i < |s| => s[|s| - 1 - i])
  }

  /** One whole `checkAndProcessAnnouncements` cycle on the collection
      `records`, given the fetch result (`None` for `null`). */
  function CheckAndProcess(records: map<string, Analysis>, fetched: Option<seq<Announcement>>,
                           extract: Extractor, analyze: Analyzer): Cycle
  {
    if fetched.None? || fetched.value == [] then Cycle(records, [])
    else ProcessBatch(records, Reversed(fetched.value), extract, analyze)
  }

  // ---------------------------------------------------------------------
  // The imperative loop
  // ---------------------------------------------------------------------

  /** The body of the `for` loop for one announcement, against the
      collection object. */
  method ProcessAnnouncement(store: AnalysisStore, announcement: Announcement, extract: Extractor, analyze: Analyzer)
    returns (outcome: ItemOutcome)
    requires store.Valid()
    modifies store
    ensures store.Valid()
    ensures Step(store.records, outcome) == ProcessItem(old(store.records), announcement, extract, analyze)
  {
    var pdfPath := announcement.attchmnt_dtl;
    var existingAnalysis := store.FindOne(pdfPath);
    if existingAnalysis.Some? {
      return AlreadyStored;
    }
    var extractedText := extract(pdfPath);
    if !Truthy(extractedText) {
      return NoText;
    }
    var analysisResult := analyze(extractedText.value);
    if analysisResult.None? {
      return NoAnalysis;
    }
    var ok := store.Save(MergedDraft(announcement, analysisResult.value));
    outcome := if ok then Saved else SaveFailed;
  }

  /** `checkAndProcessAnnouncements` against the collection object: it
      returns the per-announcement log. */
  method CheckAndProcessAnnouncements(store: AnalysisStore, fetched: Option<seq<Announcement>>,
                                      extract: Extractor, analyze: Analyzer)
    returns (log: seq<ItemOutcome>)
    requires store.Valid()
    modifies store
    ensures store.Valid()
    ensures Cycle(store.records, log) == CheckAndProcess(old(store.records), fetched, extract, analyze)
  {
    log := [];
    if fetched.None? || |fetched.value| == 0 {
      return;
    }
    var latestAnnouncements := Reversed(fetched.value);
    ghost var start := store.records;
    for i := 0 to |latestAnnouncements|
      invariant store.Valid()
      invariant Cycle(store.records, log) == ProcessBatch(start, latestAnnouncements[..i], extract, analyze)
    {
      assert latestAnnouncements[..i + 1][..i] == latestAnnouncements[..i];
      var outcome := ProcessAnnouncement(store, latestAnnouncements[i], extract, analyze);
      log := log + [outcome];
    }
    assert latestAnnouncements[..|latestAnnouncements|] == latestAnnouncements;
  }

  // ---------------------------------------------------------------------
  // Properties
  // ---------------------------------------------------------------------

  /** A missing or empty fetch result leaves the collection as it was. */
  lemma NoAnnouncementsNoChange(records: map<string, Analysis>, fetched: Option<seq<Announcement>>,
                                extract: Extractor, analyze: Analyzer)
    requires fetched.None? || fetched.value == []
    ensures CheckAndProcess(records, fetched, extract, analyze) == Cycle(records, [])
  {
  }

  /** Walking a batch in two stretches is walking the second on the
      collection the first leaves. */
  lemma {:induction false} ProcessBatchConcat(records: map<string, Analysis>, a: seq<Announcement>, b: seq<Announcement>,
                                              extract: Extractor, analyze: Analyzer)
    ensures var first := ProcessBatch(records, a, extract, analyze);
      var second := ProcessBatch(first.records, b, extract, analyze);
      ProcessBatch(records, a + b, extract, analyze) == Cycle(second.records, first.log + second.log)
  {
    if b == [] {
      assert a + b == a;
      assert ProcessBatch(records, a, extract, analyze).log + [] == ProcessBatch(records, a, extract, analyze).log;
    } else {
      var b0 := b[..|b| - 1];
      ProcessBatchConcat(records, a, b0, extract, analyze);
      assert (a + b)[..|a + b| - 1] == a + b0;
      assert (a + b)[|a + b| - 1] == b[|b| - 1];
      var first := ProcessBatch(records, a, extract, analyze);
      var mid := ProcessBatch(first.records, b0, extract, analyze);
      var s := ProcessItem(mid.records, b[|b| - 1], extract, analyze);
      assert first.log + mid.log + [s.outcome] == first.log + (mid.log + [s.outcome]);
    }
  }

  /** Reversing puts the last element first. */
  lemma ReversedSnoc<T>(s: seq<T>)
    requires s != []
    ensures Reversed(s) == [s[|s| - 1]] + Reversed(s[..|s| - 1])
  {
  }

  /** The feed lists the newest announcement first; a cycle processes the
      last one in the feed (the oldest) first, then the others on the
      collection that leaves, again oldest first. */
  lemma OldestFirst(records: map<string, Analysis>, items: seq<Announcement>, extract: Extractor, analyze: Analyzer)
    requires items != []
    ensures var s := ProcessItem(records, items[|items| - 1], extract, analyze);
      var rest := CheckAndProcess(s.records, Some(items[..|items| - 1]), extract, analyze);
      CheckAndProcess(records, Some(items), extract, analyze) == Cycle(rest.records, [s.outcome] + rest.log)
  {
    var last := items[|items| - 1];
    var init := items[..|items| - 1];
    ReversedSnoc(items);
    ProcessBatchConcat(records, [last], Reversed(init), extract, analyze);
    assert [last][..0] == [];
  }

  /** An announcement whose PDF URL is already stored is skipped, whatever
      the extractor and the analyser would answer: neither is consulted. */
  lemma StoredUrlSkipped(records: map<string, Analysis>, a: Announcement, extract: Extractor, analyze: Analyzer)
    requires a.attchmnt_dtl.Some? && a.attchmnt_dtl.value in records
    ensures ProcessItem(records, a, extract, analyze) == Step(records, AlreadyStored)
  {
  }

  /** A new announcement whose text cannot be extracted is skipped, whatever
      the analyser would answer; one whose analysis fails is skipped too. */
  lemma FailedEnrichmentSkipped(records: map<string, Analysis>, a: Announcement, extract: Extractor, analyze: Analyzer)
    requires !(a.attchmnt_dtl.Some? && a.attchmnt_dtl.value in records)
    ensures !Truthy(extract(a.attchmnt_dtl)) ==> ProcessItem(records, a, extract, analyze) == Step(records, NoText)
    ensures Truthy(extract(a.attchmnt_dtl)) && analyze(extract(a.attchmnt_dtl).value).None? ==>
      ProcessItem(records, a, extract, analyze) == Step(records, NoAnalysis)
  {
  }

  /** Only a fully enriched announcement is stored: a record is added
      exactly when the outcome is `Saved`, which needs the extracted text and
      the analysis; the record carries the announcement's symbol, name, time
      and URL and the analysis' summary, enums and reasoning. Every other
      outcome, a failed save included, leaves the collection as it was. */
  lemma SavedOnlyWhenEnriched(records: map<string, Analysis>, a: Announcement, extract: Extractor, analyze: Analyzer)
    ensures var s := ProcessItem(records, a, extract, analyze);
      s.outcome != Saved ==> s.records == records
    ensures var s := ProcessItem(records, a, extract, analyze);
      s.outcome == Saved ==>
        && Truthy(a.attchmnt_dtl) && a.attchmnt_dtl.value !in records
        && Truthy(extract(a.attchmnt_dtl))
        && analyze(extract(a.attchmnt_dtl).value).Some?
        && var ai := analyze(extract(a.attchmnt_dtl).value).value;
           var u := a.attchmnt_dtl.value;
           && s.records.Keys == records.Keys + {u}
           && (forall k :: k in records ==> s.records[k] == records[k])
           && s.records[u].source_pdf_url == u
           && Some(s.records[u].symbol) == a.sm_symbol_dtl
           && Some(s.records[u].company_name) == a.sm_name
           && Some(s.records[u].announcement_time) == a.an_dt
           && Some(s.records[u].summary) == ai.summary
           && Some(SentimentName(s.records[u].sentiment)) == ai.sentiment
           && Some(ClassificationName(s.records[u].classification)) == ai.classification
           && s.records[u].reasoning == ai.reasoning
           && s.records[u].nse_id == None
    ensures && !(a.attchmnt_dtl.Some? && a.attchmnt_dtl.value in records)
            && Truthy(extract(a.attchmnt_dtl))
            && analyze(extract(a.attchmnt_dtl).value).Some?
            && Validate(MergedDraft(a, analyze(extract(a.attchmnt_dtl).value).value)).Some? ==>
      ProcessItem(records, a, extract, analyze).outcome == Saved
  {
    var s := ProcessItem(records, a, extract, analyze);
    if && !(a.attchmnt_dtl.Some? && a.attchmnt_dtl.value in records)
       && Truthy(extract(a.attchmnt_dtl))
       && analyze(extract(a.attchmnt_dtl).value).Some?
       && Validate(MergedDraft(a, analyze(extract(a.attchmnt_dtl).value).value)).Some?
    {
      var d := MergedDraft(a, analyze(extract(a.attchmnt_dtl).value).value);
      SaveDraftSpec(records, d);
      ValidateDraftOf(Validate(d).value, d);
    }
    if s.outcome == Saved {
      var ai := analyze(extract(a.attchmnt_dtl).value).value;
      var d := MergedDraft(a, ai);
      SaveDraftSpec(records, d);
      ValidateDraftOf(Validate(d).value, d);
    }
  }

  /** One announcement never changes or removes a stored analysis. */
  lemma ProcessItemKeepsStored(records: map<string, Analysis>, a: Announcement, extract: Extractor, analyze: Analyzer)
    ensures var r := ProcessItem(records, a, extract, analyze).records;
      records.Keys <= r.Keys && forall k :: k in records ==> r[k] == records[k]
  {
    var s := ProcessItem(records, a, extract, analyze);
    if s.outcome == Saved {
      SaveDraftSpec(records, MergedDraft(a, analyze(extract(a.attchmnt_dtl).value).value));
    }
  }

  /** A batch keeps the unique-URL invariant and never changes or removes a
      stored analysis; a failed save does not stop the loop, which logs
      every announcement. */
  lemma {:induction false} ProcessBatchKeepsStored(records: map<string, Analysis>, batch: seq<Announcement>,
                                                   extract: Extractor, analyze: Analyzer)
    requires UrlKeyed(records)
    ensures var r := ProcessBatch(records, batch, extract, analyze).records;
      && UrlKeyed(r)
      && records.Keys <= r.Keys && (forall k :: k in records ==> r[k] == records[k])
  {
    if batch != [] {
      var init := batch[..|batch| - 1];
      ProcessBatchKeepsStored(records, init, extract, analyze);
      var mid := ProcessBatch(records, init, extract, analyze).records;
      var a := batch[|batch| - 1];
      ProcessItemKeepsStored(mid, a, extract, analyze);
      var s := ProcessItem(mid, a, extract, analyze);
      if s.outcome == Saved {
        var ai := analyze(extract(a.attchmnt_dtl).value).value;
        assert SaveDraft(mid, MergedDraft(a, ai)).Some?;
      }
    }
  }

  /** Within one cycle, when the feed lists the same PDF twice and the older
      listing is stored, the newer one is skipped: the first stored analysis
      for a URL is the one kept. */
  lemma OlderDuplicateWins(records: map<string, Analysis>, newer: Announcement, older: Announcement,
                           extract: Extractor, analyze: Analyzer)
    requires newer.attchmnt_dtl == older.attchmnt_dtl
    requires ProcessItem(records, older, extract, analyze).outcome == Saved
    ensures var first := ProcessItem(records, older, extract, analyze);
      CheckAndProcess(records, Some([newer, older]), extract, analyze) == Cycle(first.records, [Saved, AlreadyStored])
  {
    SavedOnlyWhenEnriched(records, older, extract, analyze);
    OldestFirst(records, [newer, older], extract, analyze);
    var first := ProcessItem(records, older, extract, analyze);
    assert [newer, older][..1] == [newer];
    OldestFirst(first.records, [newer], extract, analyze);
    assert [newer][..0] == [];
    StoredUrlSkipped(first.records, newer, extract, analyze);
  }

  /** The inputs of one polling cycle: the fetch result and the two
      services' answers. */
  datatype CycleInput = CycleInput(fetched: Option<seq<Announcement>>, extract: Extractor, analyze: Analyzer)

  /** Cycles one after another. */
  function RunCycles(records: map<string, Analysis>, cycles: seq<CycleInput>): map<string, Analysis> {
    if cycles == [] then records
    else
      var c := cycles[|cycles| - 1];
      CheckAndProcess(RunCycles(records, cycles[..|cycles| - 1]), c.fetched, c.extract, c.analyze).records
  }

  /** Across any sequence of cycles the collection never holds two analyses
      with the same URL, and nothing stored is ever changed or removed. */
  lemma {:induction false} RunCyclesKeepsUrlKeyed(records: map<string, Analysis>, cycles: seq<CycleInput>)
    requires UrlKeyed(records)
    ensures var r := RunCycles(records, cycles);
      && UrlKeyed(r)
      && records.Keys <= r.Keys && (forall k :: k in records ==> r[k] == records[k])
  {
    if cycles != [] {
      var c := cycles[|cycles| - 1];
      RunCyclesKeepsUrlKeyed(records, cycles[..|cycles| - 1]);
      var mid := RunCycles(records, cycles[..|cycles| - 1]);
      if !(c.fetched.None? || c.fetched.value == []) {
        ProcessBatchKeepsStored(mid, Reversed(c.fetched.value), c.extract, c.analyze);
      }
    }
  }
}
