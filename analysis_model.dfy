/** The Analysis collection: one record per processed announcement PDF,
    with two enumerated fields and a unique `source_pdf_url`. */
module AnalysisModel {
  import opened Wrappers
  import opened JsText

  /** The `sentiment` enum. */
  datatype Sentiment = Positive | Negative | Neutral

  /** The `classification` enum: the practical market implication. */
  datatype Classification = PotentialUpside | PotentialDownside | NoImplication

  function SentimentName(s: Sentiment): string {
    match s
    case Positive => "Positive"
    case Negative => "Negative"
    case Neutral => "Neutral"
  }

  function ClassificationName(c: Classification): string {
    match c
    case PotentialUpside => "Potential Upside"
    case PotentialDownside => "Potential Downside"
    case NoImplication => "Neutral"
  }

  /** The enum validator of `sentiment`: exactly the three listed texts are
      accepted, each naming its value. */
  function ParseSentiment(t: string): (r: Option<Sentiment>)
    ensures r.Some? ==> SentimentName(r.value) == t
  {
    if t == "Positive" then Some(Positive)
    else if t == "Negative" then Some(Negative)
    else if t == "Neutral" then Some(Neutral)
    else None
  }

  /** The enum validator of `classification`. */
  function ParseClassification(t: string): (r: Option<Classification>)
    ensures r.Some? ==> ClassificationName(r.value) == t
  {
    if t == "Potential Upside" then Some(PotentialUpside)
    else if t == "Potential Downside" then Some(PotentialDownside)
    else if t == "Neutral" then Some(NoImplication)
    else None
  }

  /** Every enum value is accepted under its own name. */
  lemma EnumNamesParse(s: Sentiment, c: Classification)
    ensures ParseSentiment(SentimentName(s)) == Some(s)
    ensures ParseClassification(ClassificationName(c)) == Some(c)
  {
  }

  /** A stored analysis. `nse_id` and `reasoning` are optional; the other
      strings are required (present and non-empty). */
  datatype Analysis = Analysis(
    nse_id: Option<string>,
    symbol: string,
    company_name: string,
    announcement_time: string,
    summary: string,
    sentiment: Sentiment,
    classification: Classification,
    reasoning: Option<string>,
    source_pdf_url: string)

  /** The required strings of a stored record are non-empty. */
  predicate WellFormed(a: Analysis) {
    a.symbol != "" && a.company_name != "" && a.announcement_time != ""
    && a.summary != "" && a.source_pdf_url != ""
  }

  /** The fields handed to `new Analysis({...})`, before validation;
      `None` is a missing field. */
  datatype AnalysisDraft = AnalysisDraft(
    nse_id: Field,
    symbol: Field,
    company_name: Field,
    announcement_time: Field,
    summary: Field,
    sentiment: Field,
    classification: Field,
    reasoning: Field,
    source_pdf_url: Field)

  /** Document validation on `save()`: every required string present and
      non-empty, both enums one of their listed texts. `None` is a
      validation error. */
  function Validate(d: AnalysisDraft): (r: Option<Analysis>)
    ensures r.Some? ==> WellFormed(r.value)
  {
    if Truthy(d.symbol) && Truthy(d.company_name) && Truthy(d.announcement_time) && Truthy(d.summary)
       && Truthy(d.source_pdf_url) && d.sentiment.Some? && d.classification.Some?
    then
      match (ParseSentiment(d.sentiment.value), ParseClassification(d.classification.value))
      case (Some(s), Some(c)) =>
        Some(Analysis(d.nse_id, d.symbol.value, d.company_name.value, d.announcement_time.value,
                      d.summary.value, s, c, d.reasoning, d.source_pdf_url.value))
      case _ => None
    else None
  }

  /** The draft that describes a stored record field by field. */
  function DraftOf(a: Analysis): AnalysisDraft {
    AnalysisDraft(a.nse_id, Some(a.symbol), Some(a.company_name), Some(a.announcement_time), Some(a.summary),
                  Some(SentimentName(a.sentiment)), Some(ClassificationName(a.classification)), a.reasoning,
                  Some(a.source_pdf_url))
  }

  /** Validation accepts exactly the drafts of well-formed records, and the
      record it builds is the one the draft describes. */
  lemma ValidateDraftOf(a: Analysis, d: AnalysisDraft)
    ensures WellFormed(a) ==> Validate(DraftOf(a)) == Some(a)
    ensures Validate(d) == Some(a) ==> d == DraftOf(a)
  {
    EnumNamesParse(a.sentiment, a.classification);
  }

  /** The collection is a map keyed by `source_pdf_url` (unique index), and
      every stored record passed validation. */
  predicate UrlKeyed(records: map<string, Analysis>) {
    forall k :: k in records ==> records[k].source_pdf_url == k && WellFormed(records[k])
  }

  /** Under the unique index no two stored analyses share a URL. */
  lemma UrlKeyedUnique(records: map<string, Analysis>, k1: string, k2: string)
    requires UrlKeyed(records) && k1 in records && k2 in records
    requires records[k1].source_pdf_url == records[k2].source_pdf_url
    ensures k1 == k2
  {
  }

  /** `save()` of a new document: `None` for a validation error or a
      duplicate `source_pdf_url`, otherwise the collection with the record
      added. */
  function SaveDraft(records: map<string, Analysis>, d: AnalysisDraft): (r: Option<map<string, Analysis>>)
    ensures UrlKeyed(records) && r.Some? ==> UrlKeyed(r.value)
  {
    match Validate(d)
    case None => None
    case Some(a) =>
      if a.source_pdf_url in records then None else Some(records[a.source_pdf_url := a])
  }

  /** A save succeeds exactly when the draft validates and its URL is new;
      it then adds that one record and keeps every other. */
  lemma SaveDraftSpec(records: map<string, Analysis>, d: AnalysisDraft)
    ensures SaveDraft(records, d).Some? <==> Validate(d).Some? && Validate(d).value.source_pdf_url !in records
    ensures SaveDraft(records, d).Some? ==>
      var a := Validate(d).value;
      && SaveDraft(records, d).value.Keys == records.Keys + {a.source_pdf_url}
      && SaveDraft(records, d).value[a.source_pdf_url] == a
      && forall k :: k in records ==> SaveDraft(records, d).value[k] == records[k]
  {
  }

  /** The Analysis collection as the polling loop uses it. */
  class AnalysisStore {
    var records: map<string, Analysis>

    ghost predicate Valid()
      reads this
    {
      UrlKeyed(records)
    }

    constructor ()
      ensures Valid() && records == map[]
    {
      records := map[];
    }

    /** `findOne({ source_pdf_url: url })`. A missing URL matches nothing,
        since every stored record has one. */
    method FindOne(url: Field) returns (r: Option<Analysis>)
      requires Valid()
      ensures r.Some? <==> url.Some? && url.value in records
      ensures r.Some? ==> r.value == records[url.value] && r.value.source_pdf_url == url.value
    {
      if url.Some? && url.value in records {
        r := Some(records[url.value]);
      } else {
        r := None;
      }
    }

    /** `new Analysis(draft).save()`: `ok` is false when validation or the
        unique index rejects the document, and nothing is stored then. */
    method Save(d: AnalysisDraft) returns (ok: bool)
      requires Valid()
      modifies this
      ensures Valid()
      ensures ok <==> SaveDraft(old(records), d).Some?
      ensures records == if ok then SaveDraft(old(records), d).value else old(records)
    {
      var v := Validate(d);
      if v.None? || v.value.source_pdf_url in records {
        return false;
      }
      records := records[v.value.source_pdf_url := v.value];
      ok := true;
    }
  }
}
