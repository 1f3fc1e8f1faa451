/** The daily NSE directory sync: the main-board and SME listings as CSV
    files whose header names are normalised by `mapHeaders`, one snapshot of
    the Company collection, one pass over the rows, then one unordered bulk
    write. */
module NseCompanySync {
  import opened Wrappers
  import opened JsText
  import opened CompanyModel

  // ---------------------------------------------------------------------
  // Header normalisation
  // ---------------------------------------------------------------------

  /** The eight standardised column names the parser keeps. */
  const HeaderNames: seq<string> := [
    "SYMBOL", "NAME_OF_COMPANY", "SERIES", "DATE_OF_LISTING",
    "PAID_UP_VALUE", "MARKET_LOT", "ISIN_NUMBER", "FACE_VALUE"]

  /** A character the pattern `[A-Z0-9]` matches. */
  predicate IsHeaderChar(c: char) {
    ('A' <= c <= 'Z') || ('0' <= c <= '9')
  }

  /** A character a cleaned header may contain. */
  predicate IsCleanChar(c: char) {
    IsHeaderChar(c) || c == '_'
  }

  /** `toUpperCase` on one character, for the ASCII letters. */
  function UpperChar(c: char): char {
    if 'a' <= c <= 'z' then (c as int - 32) as char else c
  }

  /** `toUpperCase`, on ASCII letters (see "Left out" for the rest of Unicode). */
  function UpperAscii(s: string): (r: string)
    ensures |r| == |s|
    ensures forall i :: 0 <= i < |s| && 'a' <= s[i] <= 'z' ==> r[i] as int == s[i] as int - ('a' as int - 'A' as int)
    ensures forall i :: 0 <= i < |s| && !('a' <= s[i] <= 'z') ==> r[i] == s[i]
    ensures forall i :: 0 <= i < |s| && IsCleanChar(s[i]) ==> r[i] == s[i]
    ensures forall i :: 0 <= i < |s| && 'a' <= s[i] <= 'z' ==> IsHeaderChar(r[i])
  {
    seq(|s|, i requires 0 <= i < |s| => UpperChar(s[i]))
  }

  /** `replace(/[^A-Z0-9]/g, '_')`. The pattern runs over UTF-16 code units,
      so a character outside the Basic Multilingual Plane, which is two code
      units, becomes two underscores. */
  function ReplaceNonAlnum(s: string): (r: string)
    ensures forall i :: 0 <= i < |r| ==> IsCleanChar(r[i])
    ensures |r| == |s| + AstralCount(s)
    ensures AstralCount(s) == 0 ==>
      forall i :: 0 <= i < |s| ==> r[i] == if IsHeaderChar(s[i]) then s[i] else '_'
    ensures s != [] && s[0] > '\U{FFFF}' ==> r[..2] == "__" && r[2..] == ReplaceNonAlnum(s[1..])
  {
    if s == [] then []
    else
      var c := s[0];
      var here := if IsHeaderChar(c) then [c] else if c > '\U{FFFF}' then "__" else "_";
      here + ReplaceNonAlnum(s[1..])
  }

  /** The number of characters outside the Basic Multilingual Plane, each
      of which is two UTF-16 code units. */
  function AstralCount(s: string): nat {
    if s == [] then 0 else (if s[0] > '\U{FFFF}' then 1 else 0) + AstralCount(s[1..])
  }

  /** A string made of clean characters passes the replacement unchanged. */
  lemma {:induction false} ReplaceOfClean(s: string)
    requires forall i :: 0 <= i < |s| ==> IsCleanChar(s[i])
    ensures ReplaceNonAlnum(s) == s
  {
    if s != [] {
      ReplaceOfClean(s[1..]);
      if s[0] == '_' {
        assert !IsHeaderChar(s[0]) && s[0] <= '\U{FFFF}';
      }
    }
  }

  /** `header.trim().toUpperCase().replace(/[^A-Z0-9]/g, '_')`. */
  function CleanHeader(header: string): (r: string)
    ensures forall i :: 0 <= i < |r| ==> IsCleanChar(r[i])
  {
    ReplaceNonAlnum(UpperAscii(Trim(header)))
  }

  /** A string of clean characters is its own cleaned header. */
  lemma CleanOfClean(s: string)
    requires forall i :: 0 <= i < |s| ==> IsCleanChar(s[i])
    ensures CleanHeader(s) == s
  {
    TrimOfTrimmed(s);
    assert UpperAscii(s) == s;
    ReplaceOfClean(s);
  }

  /** Cleaning is idempotent: a cleaned header cleans to itself, and so maps
      to the same standard name. */
  lemma CleanHeaderIdempotent(header: string)
    ensures CleanHeader(CleanHeader(header)) == CleanHeader(header)
    ensures MapHeaders(CleanHeader(header)) == MapHeaders(header)
  {
    CleanOfClean(CleanHeader(header));
  }

  /** The `mapHeaders` callback: the standard name the cleaned header spells,
      or `null` (`None`) to drop the column. */
  function MapHeaders(header: string): (r: Option<string>)
    ensures r.Some? <==> CleanHeader(header) in HeaderNames
    ensures r.Some? ==> r.value == CleanHeader(header)
  {
    var cleaned := CleanHeader(header);
    match cleaned
    case "SYMBOL" => Some("SYMBOL")
    case "NAME_OF_COMPANY" => Some("NAME_OF_COMPANY")
    case "SERIES" => Some("SERIES")
    case "DATE_OF_LISTING" => Some("DATE_OF_LISTING")
    case "PAID_UP_VALUE" => Some("PAID_UP_VALUE")
    case "MARKET_LOT" => Some("MARKET_LOT")
    case "ISIN_NUMBER" => Some("ISIN_NUMBER")
    case "FACE_VALUE" => Some("FACE_VALUE")
    case _ => None
  }

  /** Each standard name, used as a header, maps to itself. */
  lemma MapHeadersKeepsStandardNames(i: nat)
    requires i < |HeaderNames|
    ensures MapHeaders(HeaderNames[i]) == Some(HeaderNames[i])
  {
    var n := HeaderNames[i];
    assert forall j :: 0 <= j < |n| ==> IsCleanChar(n[j]);
    CleanOfClean(n);
  }

  /** The replacement works character by character. */
  lemma {:induction false} ReplaceConcat(a: string, b: string)
    ensures ReplaceNonAlnum(a + b) == ReplaceNonAlnum(a) + ReplaceNonAlnum(b)
  {
    if a != [] {
      assert (a + b)[0] == a[0];
      assert (a + b)[1..] == a[1..] + b;
      ReplaceConcat(a[1..], b);
      var c := a[0];
      var here := if IsHeaderChar(c) then [c] else if c > '\U{FFFF}' then "__" else "_";
      assert ReplaceNonAlnum(a + b) == here + (ReplaceNonAlnum(a[1..]) + ReplaceNonAlnum(b));
      assert ReplaceNonAlnum(a) == here + ReplaceNonAlnum(a[1..]);
    } else {
      assert a + b == b;
    }
  }

  /** A header written as two words of `[A-Z0-9]` separated by one space,
      with any whitespace before it, cleans to the words joined by an
      underscore. */
  lemma CleanSpacedWords(lead: string, w1: string, w2: string)
    requires forall i :: 0 <= i < |lead| ==> IsJsWhitespace(lead[i])
    requires w1 != [] && w2 != []
    requires forall i :: 0 <= i < |w1| ==> IsHeaderChar(w1[i])
    requires forall i :: 0 <= i < |w2| ==> IsHeaderChar(w2[i])
    ensures CleanHeader(lead + w1 + " " + w2) == w1 + "_" + w2
  {
    var t := w1 + " " + w2;
    calc {
      CleanHeader(lead + w1 + " " + w2);
    == { assert lead + w1 + " " + w2 == lead + t; }
      ReplaceNonAlnum(UpperAscii(Trim(lead + t)));
    == { assert t[0] == w1[0] && t[|t| - 1] == w2[|w2| - 1];
         HeaderCharNotWhitespace(w1[0]);
         HeaderCharNotWhitespace(w2[|w2| - 1]);
         TrimAfterLead(lead, t); }
      ReplaceNonAlnum(UpperAscii(t));
    == { UpperOfUpper(t); }
      ReplaceNonAlnum(t);
    == { ReplaceSpaced(w1, w2); }
      w1 + "_" + w2;
    }
  }

  lemma ReplaceSpaced(w1: string, w2: string)
    requires forall i :: 0 <= i < |w1| ==> IsHeaderChar(w1[i])
    requires forall i :: 0 <= i < |w2| ==> IsHeaderChar(w2[i])
    ensures ReplaceNonAlnum(w1 + " " + w2) == w1 + "_" + w2
  {
    calc {
      ReplaceNonAlnum(w1 + " " + w2);
    == { ReplaceConcat(w1 + " ", w2); }
      ReplaceNonAlnum(w1 + " ") + ReplaceNonAlnum(w2);
    == { ReplaceConcat(w1, " "); }
      ReplaceNonAlnum(w1) + ReplaceNonAlnum(" ") + ReplaceNonAlnum(w2);
    == { ReplaceOfClean(w1); ReplaceOfClean(w2); }
      w1 + ReplaceNonAlnum(" ") + w2;
    }
    assert ReplaceNonAlnum(" ") == "_";
  }

  /** Trimming removes leading whitespace from a text with no whitespace at
      either end. */
  lemma TrimAfterLead(lead: string, t: string)
    requires forall i :: 0 <= i < |lead| ==> IsJsWhitespace(lead[i])
    requires t != [] && !IsJsWhitespace(t[0]) && !IsJsWhitespace(t[|t| - 1])
    ensures Trim(lead + t) == t
  {
    LeadingWhitespaceTrimmed(lead, t);
    TrimOfTrimmed(t);
  }

  lemma HeaderCharNotWhitespace(c: char)
    requires IsHeaderChar(c)
    ensures !IsJsWhitespace(c)
  {
  }

  /** Upper-casing leaves a string without lower-case ASCII letters alone. */
  lemma UpperOfUpper(s: string)
    requires forall i :: 0 <= i < |s| ==> !('a' <= s[i] <= 'z')
    ensures UpperAscii(s) == s
  {
  }

  /** Leading whitespace changes neither the text with its start trimmed
      nor, so, how a header maps. */
  lemma {:induction false} LeadingWhitespaceTrimmed(lead: string, t: string)
    requires forall i :: 0 <= i < |lead| ==> IsJsWhitespace(lead[i])
    ensures TrimStart(lead + t) == TrimStart(t)
    ensures MapHeaders(lead + t) == MapHeaders(t)
  {
    if lead != [] {
      assert (lead + t)[0] == lead[0];
      assert (lead + t)[1..] == lead[1..] + t;
      LeadingWhitespaceTrimmed(lead[1..], t);
    } else {
      assert lead + t == t;
    }
  }

  /** So a header such as " ISIN NUMBER" or "FACE VALUE" is kept under its
      standard name. */
  lemma MapHeadersSpacedName(lead: string, w1: string, w2: string)
    requires forall i :: 0 <= i < |lead| ==> IsJsWhitespace(lead[i])
    requires w1 != [] && w2 != []
    requires forall i :: 0 <= i < |w1| ==> IsHeaderChar(w1[i])
    requires forall i :: 0 <= i < |w2| ==> IsHeaderChar(w2[i])
    requires w1 + "_" + w2 in HeaderNames
    ensures MapHeaders(lead + w1 + " " + w2) == Some(w1 + "_" + w2)
  {
    CleanSpacedWords(lead, w1, w2);
  }

  // ---------------------------------------------------------------------
  // Planning the writes
  // ---------------------------------------------------------------------

  /** One CSV record after header mapping: the standard columns the sync
      reads; a column the file lacks is `undefined`. */
  datatype NseRow = NseRow(
    SYMBOL: Field,
    NAME_OF_COMPANY: Field,
    SERIES: Field,
    ISIN_NUMBER: Field,
    FACE_VALUE: Field)

  /** `parseFloat` on a string, as an oracle: `None` stands for NaN. */
  type Parser = string -> Option<real>

  /** `x ? x.trim() : null`. */
  function TrimmedOrNull(f: Field): Field {
    if Truthy(f) then Some(Trim(f.value)) else None
  }

  /** `x ? parseFloat(x) : null`: `null` for an empty or missing cell, NaN
      for text that does not parse, and the number otherwise. */
  function FaceValueOf(parse: Parser, f: Field): Numeric {
    if !Truthy(f) then NullValue
    else match parse(f.value)
      case None => NotANumber
      case Some(v) => Value(v)
  }

  /** The row carries the essential data: ISIN, symbol and company name are
      non-empty once trimmed. */
  predicate ValidNseRow(row: NseRow) {
    && Truthy(TrimmedOrNull(row.ISIN_NUMBER))
    && Truthy(TrimmedOrNull(row.SYMBOL))
    && Truthy(TrimmedOrNull(row.NAME_OF_COMPANY))
  }

  /** The trimmed ISIN of a valid row. */
  function RowIsin(row: NseRow): string
    requires ValidNseRow(row)
  {
    TrimmedOrNull(row.ISIN_NUMBER).value
  }

  /** The document `insertOne` carries for an ISIN new to the collection:
      the placeholder scrip code and group, the segment read off `SERIES`,
      no URL, no industry, a market capitalisation of 0, and ['NSE']. */
  function NewNseDocument(isin: string, symbol: string, name: string, faceValue: Numeric, series: Field): Company {
    Company(
      SCRIP_CD := "N/A",
      Scrip_Name := name,
      Status := "Active",
      GROUP := "N/A",
      FACE_VALUE := faceValue,
      ISIN_NUMBER := isin,
      INDUSTRY := None,
      scrip_id := symbol,
      Segment := if Truthy(series) && series.value == "SM" then "SME" else "Equity",
      NSURL := None,
      Issuer_Name := Some(name),
      Mktcap := 0.0,
      listed_exchanges := [NSE])
  }

  /** The loop body for one record, against the snapshot `snap`. */
  function DecideNse(snap: map<string, Company>, row: NseRow, parse: Parser): RowOutcome {
    DecideCleaned(snap, TrimmedOrNull(row.ISIN_NUMBER), TrimmedOrNull(row.SYMBOL),
                  TrimmedOrNull(row.NAME_OF_COMPANY), FaceValueOf(parse, row.FACE_VALUE), row.SERIES)
  }

  /** The loop body once the ISIN, symbol and name are trimmed (or `null`)
      and the face value parsed. */
  function DecideCleaned(snap: map<string, Company>, isin: Field, symbol: Field, name: Field,
                         faceValue: Numeric, series: Field): RowOutcome
  {
    if !Truthy(isin) || !Truthy(symbol) || !Truthy(name) then
      Skipped
    else if isin.value in snap then
      var current := snap[isin.value].listed_exchanges;
      if NSE !in current then Planned(UpdateOne(isin.value, None, None, current + [NSE]))
      else Skipped
    else
      Planned(InsertOne(NewNseDocument(isin.value, symbol.value, name.value, faceValue, series)))
  }

  /** The whole loop over the combined records. Every record bumps exactly one
      of the three counters, and every insert or update is one entry of the
      operation list. */
  function PlanNse(snap: map<string, Company>, rows: seq<NseRow>, parse: Parser): (r: Plan)
    ensures r.inserted + r.updated == |r.ops|
    ensures r.inserted + r.updated + r.skipped == |rows|
  {
    if rows == [] then Plan([], 0, 0, 0)
    else Record(PlanNse(snap, rows[..|rows| - 1], parse), DecideNse(snap, rows[|rows| - 1], parse))
  }

  lemma PlanNseStep(snap: map<string, Company>, rows: seq<NseRow>, i: nat, parse: Parser)
    requires i < |rows|
    ensures PlanNse(snap, rows[..i + 1], parse) == Record(PlanNse(snap, rows[..i], parse), DecideNse(snap, rows[i], parse))
  {
    assert rows[..i + 1][..i] == rows[..i];
  }

  /** Planning a concatenation plans the two parts one after the other: the
      main-board rows' operations come first, then the SME rows', and the
      counters add up. */
  lemma {:induction false} PlanNseConcat(snap: map<string, Company>, a: seq<NseRow>, b: seq<NseRow>, parse: Parser)
    ensures PlanNse(snap, a + b, parse) == Then(PlanNse(snap, a, parse), PlanNse(snap, b, parse))
  {
    if b == [] {
      assert a + b == a;
      assert PlanNse(snap, a, parse).ops + [] == PlanNse(snap, a, parse).ops;
    } else {
      var b0 := b[..|b| - 1];
      var o := DecideNse(snap, b[|b| - 1], parse);
      PlanNseConcat(snap, a, b0, parse);
      PlanNseSnoc(snap, a, b, parse);
      RecordThen(PlanNse(snap, a, parse), PlanNse(snap, b0, parse), o);
    }
  }

  /** The plan for `a + b` records the last row of `b` after the plan for the
      rest. */
  lemma PlanNseSnoc(snap: map<string, Company>, a: seq<NseRow>, b: seq<NseRow>, parse: Parser)
    requires b != []
    ensures PlanNse(snap, a + b, parse)
      == Record(PlanNse(snap, a + b[..|b| - 1], parse), DecideNse(snap, b[|b| - 1], parse))
  {
    var ab := a + b;
    PlanNseLast(snap, ab, parse);
    assert ab[|ab| - 1] == b[|b| - 1];
    assert ab[..|ab| - 1] == a + b[..|b| - 1];
  }

  /** The plan for a non-empty list records its last row after the plan for
      the rest. */
  lemma PlanNseLast(snap: map<string, Company>, rows: seq<NseRow>, parse: Parser)
    requires rows != []
    ensures PlanNse(snap, rows, parse)
      == Record(PlanNse(snap, rows[..|rows| - 1], parse), DecideNse(snap, rows[|rows| - 1], parse))
  {
  }

  /** The `for` loop of the sync. */
  method PlanNseOperations(snap: map<string, Company>, rows: seq<NseRow>, parse: Parser)
    returns (bulkOperations: seq<CompanyOp>, insertedCount: nat, updatedCount: nat, skippedCount: nat)
    ensures PlanNse(snap, rows, parse) == Plan(bulkOperations, insertedCount, updatedCount, skippedCount)
  {
    bulkOperations := [];
    insertedCount, updatedCount, skippedCount := 0, 0, 0;
    for i := 0 to |rows|
      invariant PlanNse(snap, rows[..i], parse) == Plan(bulkOperations, insertedCount, updatedCount, skippedCount)
    {
      PlanNseStep(snap, rows, i, parse);
      bulkOperations, insertedCount, updatedCount, skippedCount :=
        PlanNseRecord(snap, rows[i], parse, bulkOperations, insertedCount, updatedCount, skippedCount);
    }
    assert rows[..|rows|] == rows;
  }

  /** The body of the `for` loop for one record: it pushes the record's
      insert or update, or counts it as skipped. */
  method PlanNseRecord(snap: map<string, Company>, row: NseRow, parse: Parser,
                       ops0: seq<CompanyOp>, inserted0: nat, updated0: nat, skipped0: nat)
    returns (bulkOperations: seq<CompanyOp>, insertedCount: nat, updatedCount: nat, skippedCount: nat)
    ensures Plan(bulkOperations, insertedCount, updatedCount, skippedCount)
      == Record(Plan(ops0, inserted0, updated0, skipped0), DecideNse(snap, row, parse))
  {
    bulkOperations, insertedCount, updatedCount, skippedCount := ops0, inserted0, updated0, skipped0;
    var nseIsin := TrimmedOrNull(row.ISIN_NUMBER);
    var nseSymbol := TrimmedOrNull(row.SYMBOL);
    var nseCompanyName := TrimmedOrNull(row.NAME_OF_COMPANY);
    var nseFaceValue := FaceValueOf(parse, row.FACE_VALUE);
    if !Truthy(nseIsin) || !Truthy(nseSymbol) || !Truthy(nseCompanyName) {
      skippedCount := skippedCount + 1;
      return;
    }
    var isin := nseIsin.value;
    if isin in snap {
      var currentExchanges := snap[isin].listed_exchanges;
      if NSE !in currentExchanges {
        bulkOperations := bulkOperations + [UpdateOne(isin, None, None, currentExchanges + [NSE])];
        updatedCount := updatedCount + 1;
      } else {
        skippedCount := skippedCount + 1;
      }
    } else {
      var document := NewNseDocument(isin, nseSymbol.value, nseCompanyName.value, nseFaceValue, row.SERIES);
      bulkOperations := bulkOperations + [InsertOne(document)];
      insertedCount := insertedCount + 1;
    }
  }

  // ---------------------------------------------------------------------
  // The run
  // ---------------------------------------------------------------------

  /** The snapshot map: the stored companies whose ISIN is a non-empty
      string. */
  function ListedSnapshot(docs: map<string, Company>): (m: map<string, Company>)
    ensures forall k :: k in m <==> k in docs && k != ""
    ensures forall k :: k in m ==> m[k] == docs[k]
  {
    map k | k in docs && k != "" :: docs[k]
  }

  /** `existingCompanies.forEach(comp => { if (comp.ISIN_NUMBER) map.set(...) })`:
      every document with a non-empty ISIN is reachable under it, each key
      holds the last such document, and no key is empty. */
  method IndexListedIsins(existing: seq<Company>) returns (m: map<string, Company>)
    ensures forall j :: 0 <= j < |existing| && existing[j].ISIN_NUMBER != "" ==> existing[j].ISIN_NUMBER in m
    ensures forall k :: k in m ==> k != "" && exists j :: LastWithIsin(existing, |existing|, k, j) && m[k] == existing[j]
  {
    m := map[];
    for i := 0 to |existing|
      invariant forall j :: 0 <= j < i && existing[j].ISIN_NUMBER != "" ==> existing[j].ISIN_NUMBER in m
      invariant forall k :: k in m ==> k != "" && exists j :: LastWithIsin(existing, i, k, j) && m[k] == existing[j]
    {
      var comp := existing[i];
      if comp.ISIN_NUMBER != "" {
        m := m[comp.ISIN_NUMBER := comp];
        assert LastWithIsin(existing, i + 1, comp.ISIN_NUMBER, i);
      }
      forall k | k in m && k != comp.ISIN_NUMBER
        ensures exists j :: LastWithIsin(existing, i + 1, k, j) && m[k] == existing[j]
      {
        var j :| LastWithIsin(existing, i, k, j) && m[k] == existing[j];
        assert LastWithIsin(existing, i + 1, k, j);
      }
    }
  }

  /** Indexing a complete read of the collection gives the snapshot map. */
  lemma ListedSnapshotOfEnumeration(docs: map<string, Company>, rows: seq<Company>, m: map<string, Company>)
    requires UniqueKeys(docs)
    requires forall r :: r in rows ==> r.ISIN_NUMBER in docs && docs[r.ISIN_NUMBER] == r
    requires forall k :: k in docs ==> docs[k] in rows
    requires forall j :: 0 <= j < |rows| && rows[j].ISIN_NUMBER != "" ==> rows[j].ISIN_NUMBER in m
    requires forall k :: k in m ==> k != "" && exists j :: LastWithIsin(rows, |rows|, k, j) && m[k] == rows[j]
    ensures m == ListedSnapshot(docs)
  {
    forall k | k in docs && k != "" ensures k in m {
      var j :| 0 <= j < |rows| && rows[j] == docs[k];
    }
    forall k | k in m ensures k in docs && m[k] == docs[k] {
      var j :| LastWithIsin(rows, |rows|, k, j) && m[k] == rows[j];
      assert rows[j] in rows;
    }
  }

  /** A whole run of `syncNSECompaniesToDB` on the collection `docs`: the two
      listings (`None` for a failed download), whether the read of existing
      companies fails, and the parser. */
  function NseSync(docs: map<string, Company>, equity: Option<seq<NseRow>>, sme: Option<seq<NseRow>>,
                   readFails: bool, parse: Parser): SyncRun
  {
    if equity.None? || sme.None? then SyncRun(docs, NoData)
    else
      var rows := equity.value + sme.value;
      if rows == [] then SyncRun(docs, NoData)
      else if readFails then SyncRun(docs, ReadFailed)
      else
        var p := PlanNse(ListedSnapshot(docs), rows, parse);
        var w := ApplyOps(docs, p.ops);
        SyncRun(w.docs, Synced(p.inserted, p.updated, p.skipped, w.writeErrors))
  }

  /** `syncNSECompaniesToDB` against the collection object. */
  method SyncNseCompaniesToDb(store: CompanyStore, equity: Option<seq<NseRow>>, sme: Option<seq<NseRow>>,
                              readFails: bool, parse: Parser)
    returns (outcome: SyncOutcome)
    requires store.Valid()
    modifies store
    ensures store.Valid()
    ensures store.docs == NseSync(old(store.docs), equity, sme, readFails, parse).docs
    ensures outcome == NseSync(old(store.docs), equity, sme, readFails, parse).outcome
  {
    if equity.None? || sme.None? {
      return NoData;
    }
    var fetchedNseCompanies := equity.value + sme.value;
    if |fetchedNseCompanies| == 0 {
      return NoData;
    }
    if readFails {
      return ReadFailed;
    }
    var existing := store.Find();
    var snapshot := IndexListedIsins(existing);
    ListedSnapshotOfEnumeration(store.docs, existing, snapshot);
    var bulkOperations, insertedCount, updatedCount, skippedCount := PlanNseOperations(snapshot, fetchedNseCompanies, parse);
    var errorCount := 0;
    if |bulkOperations| > 0 {
      errorCount := store.BulkWrite(bulkOperations);
    }
    outcome := Synced(insertedCount, updatedCount, skippedCount, errorCount);
  }

  // ---------------------------------------------------------------------
  // Properties of the run
  // ---------------------------------------------------------------------

  /** A failed download, an empty combined listing or a failed read: the
      collection is left exactly as it was and no bulk write is issued. */
  lemma NseSyncFailuresWriteNothing(docs: map<string, Company>, equity: Option<seq<NseRow>>, sme: Option<seq<NseRow>>,
                                    readFails: bool, parse: Parser)
    requires equity.None? || sme.None? || equity.value + sme.value == [] || readFails
    ensures NseSync(docs, equity, sme, readFails, parse).docs == docs
    ensures equity.None? || sme.None? || equity.value + sme.value == [] ==>
      NseSync(docs, equity, sme, readFails, parse).outcome == NoData
    ensures equity.Some? && sme.Some? && equity.value + sme.value != [] ==>
      NseSync(docs, equity, sme, readFails, parse).outcome == ReadFailed
  {
  }

  /** A run plans the main-board records first and the SME records after
      them: its operations are those of the main-board listing followed by
      those of the SME listing, and its counters are the sums. */
  lemma NseSyncEquityFirst(docs: map<string, Company>, equity: seq<NseRow>, sme: seq<NseRow>, parse: Parser)
    requires equity + sme != []
    ensures var snap := ListedSnapshot(docs);
      NseSync(docs, Some(equity), Some(sme), false, parse)
      == var p := Then(PlanNse(snap, equity, parse), PlanNse(snap, sme, parse));
         var w := ApplyOps(docs, p.ops);
         SyncRun(w.docs, Synced(p.inserted, p.updated, p.skipped, w.writeErrors))
  {
    PlanNseConcat(ListedSnapshot(docs), equity, sme, parse);
  }

  /** A record whose trimmed ISIN, symbol or company name is missing or
      empty is skipped and produces no operation. */
  lemma NseInvalidRowSkipped(snap: map<string, Company>, row: NseRow, parse: Parser)
    requires !ValidNseRow(row)
    ensures DecideNse(snap, row, parse) == Skipped
  {
  }

  /** A valid record whose ISIN the snapshot lacks yields one insert of a
      document with the trimmed ISIN, symbol and name, the face value passed
      through unvalidated (`null` when the cell is empty, NaN when it does not
      parse), the placeholder scrip code and group, a market capitalisation
      of 0, ['NSE'] as its exchanges, and 'SME' as its segment exactly when
      `SERIES` is 'SM'. It carries no industry, which the schema requires. */
  lemma NseNewIsinInserted(snap: map<string, Company>, row: NseRow, parse: Parser)
    requires ValidNseRow(row) && RowIsin(row) !in snap
    ensures DecideNse(snap, row, parse).Planned? && DecideNse(snap, row, parse).op.InsertOne?
    ensures var d := DecideNse(snap, row, parse).op.document;
      && d.ISIN_NUMBER == RowIsin(row)
      && d.scrip_id == Trim(row.SYMBOL.value)
      && d.Scrip_Name == Trim(row.NAME_OF_COMPANY.value)
      && d.Issuer_Name == Some(Trim(row.NAME_OF_COMPANY.value))
      && d.SCRIP_CD == "N/A" && d.GROUP == "N/A" && d.Status == "Active"
      && d.Mktcap == 0.0 && d.NSURL == None
      && d.listed_exchanges == [NSE]
      && (!Truthy(row.FACE_VALUE) ==> d.FACE_VALUE == NullValue)
      && (Truthy(row.FACE_VALUE) && parse(row.FACE_VALUE.value).None? ==> d.FACE_VALUE == NotANumber)
      && (Truthy(row.FACE_VALUE) && parse(row.FACE_VALUE.value).Some? ==>
            d.FACE_VALUE == Value(parse(row.FACE_VALUE.value).value))
      && (d.Segment == "SME" <==> row.SERIES == Some("SM"))
      && (d.Segment != "SME" ==> d.Segment == "Equity")
      && !SchemaValid(d)
  {
  }

  /** For a valid record whose ISIN is in the snapshot: an update is produced
      if and only if the company is not yet listed on 'NSE'; it sets only the
      exchange list, to the old list followed by 'NSE'. Otherwise the record
      is skipped. */
  lemma NseExistingIsinUpdatedIffMissingNse(snap: map<string, Company>, row: NseRow, parse: Parser)
    requires ValidNseRow(row) && RowIsin(row) in snap
    ensures var current := snap[RowIsin(row)].listed_exchanges;
      && (NSE !in current ==>
            DecideNse(snap, row, parse) == Planned(UpdateOne(RowIsin(row), None, None, current + [NSE])))
      && (NSE in current ==> DecideNse(snap, row, parse) == Skipped)
  {
  }

  /** The writes the NSE loop plans against `snap`: inserts of documents
      with the placeholder scrip code and no industry, listed on ['NSE']
      only, and updates of a snapshot company that set only its exchange
      list, to the snapshot's list followed by 'NSE'. */
  predicate NseWrite(snap: map<string, Company>, op: CompanyOp) {
    match op
    case InsertOne(c) => c.SCRIP_CD == "N/A" && c.INDUSTRY.None? && c.listed_exchanges == [NSE]
    case UpdateOne(k, m, f, ex) => k in snap && m.None? && f.None? && ex == snap[k].listed_exchanges + [NSE]
  }

  lemma DecideNseWrites(snap: map<string, Company>, row: NseRow, parse: Parser)
    ensures DecideNse(snap, row, parse).Planned? ==> NseWrite(snap, DecideNse(snap, row, parse).op)
  {
  }

  /** Every operation the loop plans is one of those writes. */
  lemma {:induction false} PlanNseWrites(snap: map<string, Company>, rows: seq<NseRow>, parse: Parser)
    ensures forall i :: 0 <= i < |PlanNse(snap, rows, parse).ops| ==> NseWrite(snap, PlanNse(snap, rows, parse).ops[i])
  {
    if rows != [] {
      var init := rows[..|rows| - 1];
      var o := DecideNse(snap, rows[|rows| - 1], parse);
      PlanNseLast(snap, rows, parse);
      PlanNseWrites(snap, init, parse);
      DecideNseWrites(snap, rows[|rows| - 1], parse);
      var ops0 := PlanNse(snap, init, parse).ops;
      var ops := PlanNse(snap, rows, parse).ops;
      assert ops == ops0 + OpsOf(o);
      forall i | 0 <= i < |ops| ensures NseWrite(snap, ops[i]) {
        if i < |ops0| {
          assert ops[i] == ops0[i];
        }
      }
    }
  }

  /** Every NSE write succeeds without a write error and stores no new
      company: an insert lacks the industry the schema requires, so the bulk
      write drops it, and an update whose filter matches nothing changes
      nothing. */
  lemma {:induction false} NseWritesKeepKeys(snap: map<string, Company>, d: map<string, Company>, ops: seq<CompanyOp>)
    requires forall i :: 0 <= i < |ops| ==> NseWrite(snap, ops[i])
    ensures ApplyOps(d, ops).docs.Keys == d.Keys
    ensures ApplyOps(d, ops).writeErrors == 0
  {
    if ops != [] {
      NseWritesKeepKeys(snap, d, ops[..|ops| - 1]);
    }
  }

  /** The record needs no write against `d`: it is invalid, or its company
      is stored and listed on 'NSE'. */
  predicate NseSettled(d: map<string, Company>, row: NseRow) {
    ValidNseRow(row) ==> RowIsin(row) in d && NSE in d[RowIsin(row)].listed_exchanges
  }

  /** The loop skips a record exactly when it is settled in the snapshot. */
  lemma NseSettledRowSkipped(snap: map<string, Company>, row: NseRow, parse: Parser)
    ensures DecideNse(snap, row, parse) == Skipped <==> NseSettled(snap, row)
  {
  }

  /** The record is a fixed point of the sync against `d`: it is invalid, or
      its company is listed on 'NSE', or its company is not stored, so that
      its insert is planned again on every run and dropped again. */
  predicate NseStable(d: map<string, Company>, row: NseRow) {
    ValidNseRow(row) && RowIsin(row) in d ==> NSE in d[RowIsin(row)].listed_exchanges
  }

  /** Every record is stable in `d`. */
  predicate AllNseStable(d: map<string, Company>, rows: seq<NseRow>) {
    forall i :: 0 <= i < |rows| ==> NseStable(d, rows[i])
  }

  /** An NSE write keeps a stable record stable. */
  lemma NseWriteKeepsStable(snap: map<string, Company>, d: map<string, Company>, op: CompanyOp, row: NseRow)
    requires NseWrite(snap, op) && NseStable(d, row)
    ensures ApplyOp(d, op).Some? && NseStable(ApplyOp(d, op).value, row)
  {
    if ValidNseRow(row) {
      var k := RowIsin(row);
      if OpKey(op) != k {
        ApplyOpOtherKey(d, op, k);
      } else if op.UpdateOne? {
        var ex := op.setExchanges;
        assert ex[|ex| - 1] == NSE;
      }
    }
  }

  /** Any sequence of NSE writes keeps a stable record stable. */
  lemma {:induction false} NseWritesKeepStable(snap: map<string, Company>, d: map<string, Company>,
                                               ops: seq<CompanyOp>, row: NseRow)
    requires forall i :: 0 <= i < |ops| ==> NseWrite(snap, ops[i])
    requires NseStable(d, row)
    ensures NseStable(ApplyOps(d, ops).docs, row)
  {
    if ops != [] {
      var init := ops[..|ops| - 1];
      NseWritesKeepStable(snap, d, init, row);
      NseWriteKeepsStable(snap, ApplyOps(d, init).docs, ops[|ops| - 1], row);
    }
  }

  /** The write planned for a record makes it stable, against a collection
      that holds its ISIN exactly when the snapshot does: an update lists the
      company on 'NSE', and a dropped insert leaves its ISIN unstored. */
  lemma NsePlannedWriteStable(snap: map<string, Company>, d: map<string, Company>, row: NseRow, parse: Parser)
    requires ValidNseRow(row) ==> (RowIsin(row) in d <==> RowIsin(row) in snap)
    requires DecideNse(snap, row, parse).Planned?
    ensures ApplyOp(d, DecideNse(snap, row, parse).op).Some?
    ensures NseStable(ApplyOp(d, DecideNse(snap, row, parse).op).value, row)
  {
    var op := DecideNse(snap, row, parse).op;
    if op.UpdateOne? {
      var ex := op.setExchanges;
      assert ex[|ex| - 1] == NSE;
    }
  }

  /** After any run every record is stable; unlike the BSE sync no
      distinctness of ISINs is needed, because a second write to a company
      only lists 'NSE' again. */
  lemma {:induction false} PlanNseStabilises(docs: map<string, Company>, rows: seq<NseRow>, parse: Parser)
    ensures AllNseStable(ApplyOps(docs, PlanNse(ListedSnapshot(docs), rows, parse).ops).docs, rows)
  {
    if rows != [] {
      var snap := ListedSnapshot(docs);
      var init := rows[..|rows| - 1];
      var row := rows[|rows| - 1];
      PlanNseLast(snap, rows, parse);
      var ops0 := PlanNse(snap, init, parse).ops;
      var o := DecideNse(snap, row, parse);
      assert rows == init + [row];
      PlanNseStabilises(docs, init, parse);
      PlanNseWrites(snap, init, parse);
      if o.Skipped? {
        assert PlanNse(snap, rows, parse).ops == ops0;
        NseSkipStepStable(docs, ops0, init, row, parse);
      } else {
        assert PlanNse(snap, rows, parse).ops == ops0 + [o.op];
        ApplyOpsSnoc(docs, ops0, o.op);
        NseWriteStepStable(docs, init, row, parse);
      }
    }
  }

  /** Adding a skipped record keeps every record stable. */
  lemma NseSkipStepStable(docs: map<string, Company>, ops0: seq<CompanyOp>, init: seq<NseRow>, row: NseRow,
                          parse: Parser)
    requires DecideNse(ListedSnapshot(docs), row, parse) == Skipped
    requires forall i :: 0 <= i < |ops0| ==> NseWrite(ListedSnapshot(docs), ops0[i])
    requires AllNseStable(ApplyOps(docs, ops0).docs, init)
    ensures AllNseStable(ApplyOps(docs, ops0).docs, init + [row])
  {
    var snap := ListedSnapshot(docs);
    NseSettledRowSkipped(snap, row, parse);
    NseWritesKeepStable(snap, docs, ops0, row);
  }

  /** Adding a record with a planned write keeps every record stable. */
  lemma NseWriteStepStable(docs: map<string, Company>, init: seq<NseRow>, row: NseRow, parse: Parser)
    requires DecideNse(ListedSnapshot(docs), row, parse).Planned?
    requires AllNseStable(ApplyOps(docs, PlanNse(ListedSnapshot(docs), init, parse).ops).docs, init)
    ensures ApplyOp(ApplyOps(docs, PlanNse(ListedSnapshot(docs), init, parse).ops).docs,
                    DecideNse(ListedSnapshot(docs), row, parse).op).Some?
    ensures AllNseStable(ApplyOp(ApplyOps(docs, PlanNse(ListedSnapshot(docs), init, parse).ops).docs,
                                 DecideNse(ListedSnapshot(docs), row, parse).op).value, init + [row])
  {
    var snap := ListedSnapshot(docs);
    var ops0 := PlanNse(snap, init, parse).ops;
    var d0 := ApplyOps(docs, ops0).docs;
    var op := DecideNse(snap, row, parse).op;
    PlanNseWrites(snap, init, parse);
    NseWritesKeepKeys(snap, docs, ops0);
    DecideNseWrites(snap, row, parse);
    NsePlannedWriteStable(snap, d0, row, parse);
    var d1 := ApplyOp(d0, op).value;
    forall i | 0 <= i < |init| ensures NseStable(d1, init[i]) {
      NseWriteKeepsStable(snap, d0, op, init[i]);
    }
  }

  /** The number of valid records whose ISIN is not among `keys`. */
  function NewRecordCount(keys: set<string>, rows: seq<NseRow>): (n: nat)
    ensures n <= |rows|
  {
    if rows == [] then 0
    else
      var last := rows[|rows| - 1];
      NewRecordCount(keys, rows[..|rows| - 1]) + (if ValidNseRow(last) && RowIsin(last) !in keys then 1 else 0)
  }

  /** The loop counts as inserted exactly the valid records whose ISIN the
      snapshot lacks; the snapshot and `keys` agree on every non-empty
      ISIN. */
  lemma {:induction false} PlanNseInsertedCount(snap: map<string, Company>, keys: set<string>, rows: seq<NseRow>,
                                                parse: Parser)
    requires forall k :: k != "" ==> (k in snap <==> k in keys)
    ensures PlanNse(snap, rows, parse).inserted == NewRecordCount(keys, rows)
  {
    if rows != [] {
      PlanNseLast(snap, rows, parse);
      PlanNseInsertedCount(snap, keys, rows[..|rows| - 1], parse);
    }
  }

  /** When every record is stable the loop plans no update: its only writes
      are inserts, one for each valid record whose company is not stored. */
  lemma {:induction false} AllNseStablePlansInserts(snap: map<string, Company>, rows: seq<NseRow>, parse: Parser)
    requires AllNseStable(snap, rows)
    ensures PlanNse(snap, rows, parse).updated == 0
    ensures forall i :: 0 <= i < |PlanNse(snap, rows, parse).ops| ==> PlanNse(snap, rows, parse).ops[i].InsertOne?
  {
    if rows != [] {
      var init := rows[..|rows| - 1];
      assert AllNseStable(snap, init) by {
        forall i | 0 <= i < |init| ensures NseStable(snap, init[i]) {
          assert init[i] == rows[i];
        }
      }
      AllNseStablePlansInserts(snap, init, parse);
      PlanNseLast(snap, rows, parse);
      assert NseStable(snap, rows[|rows| - 1]);
      var ops0 := PlanNse(snap, init, parse).ops;
      var ops := PlanNse(snap, rows, parse).ops;
      assert ops == ops0 + OpsOf(DecideNse(snap, rows[|rows| - 1], parse));
      forall i | 0 <= i < |ops| ensures ops[i].InsertOne? {
        if i < |ops0| {
          assert ops[i] == ops0[i];
        }
      }
    }
  }

  /** A run never adds a company to the collection and never reports a write
      error: every NSE-only insert lacks the industry the schema requires and
      is dropped by the bulk write. */
  lemma NseSyncAddsNoCompany(docs: map<string, Company>, equity: Option<seq<NseRow>>, sme: Option<seq<NseRow>>,
                             readFails: bool, parse: Parser)
    ensures NseSync(docs, equity, sme, readFails, parse).docs.Keys == docs.Keys
    ensures NseSync(docs, equity, sme, readFails, parse).outcome.Synced? ==>
      NseSync(docs, equity, sme, readFails, parse).outcome.errors == 0
  {
    if equity.Some? && sme.Some? && equity.value + sme.value != [] && !readFails {
      var rows := equity.value + sme.value;
      PlanNseWrites(ListedSnapshot(docs), rows, parse);
      NseWritesKeepKeys(ListedSnapshot(docs), docs, PlanNse(ListedSnapshot(docs), rows, parse).ops);
    }
  }

  /** After a run, every valid record whose company is stored has it listed
      on 'NSE'. */
  lemma NseSyncListsStoredRecords(docs: map<string, Company>, equity: seq<NseRow>, sme: seq<NseRow>, parse: Parser, i: nat)
    requires NseSync(docs, Some(equity), Some(sme), false, parse).outcome.Synced?
    requires i < |equity + sme| && ValidNseRow((equity + sme)[i])
    ensures var d1 := NseSync(docs, Some(equity), Some(sme), false, parse).docs;
      var k := RowIsin((equity + sme)[i]);
      k in d1 ==> NSE in d1[k].listed_exchanges
  {
    PlanNseStabilises(docs, equity + sme, parse);
  }

  /** On a collection in which every record is stable the loop plans no
      update, counts as inserted the valid records whose company is not
      stored, and its bulk write changes nothing and reports no error. */
  lemma PlanNseOfStable(d: map<string, Company>, rows: seq<NseRow>, parse: Parser)
    requires AllNseStable(d, rows)
    ensures var p := PlanNse(ListedSnapshot(d), rows, parse);
      && p.inserted == NewRecordCount(d.Keys, rows)
      && p.updated == 0
      && ApplyOps(d, p.ops) == WriteResult(d, 0)
  {
    var snap := ListedSnapshot(d);
    assert AllNseStable(snap, rows) by {
      forall i | 0 <= i < |rows| ensures NseStable(snap, rows[i]) {
        assert NseStable(d, rows[i]);
      }
    }
    var ops := PlanNse(snap, rows, parse).ops;
    AllNseStablePlansInserts(snap, rows, parse);
    PlanNseInsertedCount(snap, d.Keys, rows, parse);
    PlanNseWrites(snap, rows, parse);
    assert forall i :: 0 <= i < |ops| ==> ops[i].InsertOne? && !SchemaValid(ops[i].document) by {
      forall i | 0 <= i < |ops| ensures ops[i].InsertOne? && !SchemaValid(ops[i].document) {
        assert NseWrite(snap, ops[i]);
      }
    }
    RefusedInsertsWriteNothing(d, ops);
  }

  /** A run on a collection in which every record is stable changes nothing
      and updates nothing: it counts as inserted the valid records whose
      company is not stored, drops those inserts, and skips every other
      record. */
  lemma NseSyncOfStable(d: map<string, Company>, keys: set<string>, equity: seq<NseRow>, sme: seq<NseRow>, parse: Parser)
    requires equity + sme != [] && AllNseStable(d, equity + sme) && d.Keys == keys
    ensures var n := NewRecordCount(keys, equity + sme);
      NseSync(d, Some(equity), Some(sme), false, parse) == SyncRun(d, Synced(n, 0, |equity| + |sme| - n, 0))
  {
    PlanNseOfStable(d, equity + sme, parse);
  }

  /** A run counts as inserted the valid records whose ISIN is not stored,
      keeps the set of stored companies and leaves every record stable. */
  lemma NseSyncFirstRun(docs: map<string, Company>, equity: seq<NseRow>, sme: seq<NseRow>, parse: Parser)
    requires equity + sme != []
    ensures NseSync(docs, Some(equity), Some(sme), false, parse).outcome.inserted
      == NewRecordCount(docs.Keys, equity + sme)
    ensures NseSync(docs, Some(equity), Some(sme), false, parse).docs.Keys == docs.Keys
    ensures AllNseStable(NseSync(docs, Some(equity), Some(sme), false, parse).docs, equity + sme)
  {
    PlanNseInsertedCount(ListedSnapshot(docs), docs.Keys, equity + sme, parse);
    NseSyncAddsNoCompany(docs, Some(equity), Some(sme), false, parse);
    PlanNseStabilises(docs, equity + sme, parse);
  }

  /** Re-running the sync on the same listings right after a run changes
      nothing and updates nothing: the records the first run counted as
      inserted are counted as inserted again, since their inserts were
      dropped, every other record is skipped, and no write error is
      reported. */
  lemma NseSyncIdempotent(docs: map<string, Company>, equity: seq<NseRow>, sme: seq<NseRow>, parse: Parser)
    requires equity + sme != []
    ensures var docs1 := NseSync(docs, Some(equity), Some(sme), false, parse).docs;
      var n := NewRecordCount(docs.Keys, equity + sme);
      NseSync(docs1, Some(equity), Some(sme), false, parse) == SyncRun(docs1, Synced(n, 0, |equity| + |sme| - n, 0))
  {
    var docs1 := NseSync(docs, Some(equity), Some(sme), false, parse).docs;
    assert AllNseStable(docs1, equity + sme) && docs1.Keys == docs.Keys by {
      NseSyncFirstRun(docs, equity, sme, parse);
    }
    NseSyncOfStable(docs1, docs.Keys, equity, sme, parse);
  }

  /** A sync never deletes a company and never removes an exchange from a
      company's list, whatever the listings hold. */
  lemma NseSyncNeverRemovesExchange(docs: map<string, Company>, equity: Option<seq<NseRow>>, sme: Option<seq<NseRow>>,
                                    readFails: bool, parse: Parser)
    ensures ExchangesGrown(docs, NseSync(docs, equity, sme, readFails, parse).docs)
  {
    if equity.Some? && sme.Some? && equity.value + sme.value != [] && !readFails {
      var rows := equity.value + sme.value;
      var snap := ListedSnapshot(docs);
      var ops := PlanNse(snap, rows, parse).ops;
      PlanNseWrites(snap, rows, parse);
      NseWritesGrowExchanges(docs, ops);
    }
  }

  /** NSE writes planned against the snapshot of `docs` only grow exchange
      lists. */
  lemma NseWritesGrowExchanges(docs: map<string, Company>, ops: seq<CompanyOp>)
    requires forall i :: 0 <= i < |ops| ==> NseWrite(ListedSnapshot(docs), ops[i])
    ensures ExchangesGrown(docs, ApplyOps(docs, ops).docs)
  {
    var snap := ListedSnapshot(docs);
    forall i | 0 <= i < |ops| ensures KeepsExchanges(docs, ops[i]) {
      if ops[i].UpdateOne? {
        assert NseWrite(snap, ops[i]);
        ExchangesAppend(snap[ops[i].filterIsin].listed_exchanges, [NSE]);
      }
    }
    ApplyOpsGrowsExchanges(docs, ops);
  }

  /** Two valid records whose ISINs are not stored both count as inserts,
      and the run changes nothing: both inserts are dropped by the schema. */
  lemma NseNewCompaniesNotStored(docs: map<string, Company>, row1: NseRow, row2: NseRow, parse: Parser)
    requires ValidNseRow(row1) && ValidNseRow(row2)
    requires RowIsin(row1) !in docs && RowIsin(row2) !in docs
    ensures NseSync(docs, Some([row1]), Some([row2]), false, parse) == SyncRun(docs, Synced(2, 0, 0, 0))
  {
    var snap := ListedSnapshot(docs);
    var o1 := DecideNse(snap, row1, parse);
    var o2 := DecideNse(snap, row2, parse);
    NseNewIsinInserted(snap, row1, parse);
    NseNewIsinInserted(snap, row2, parse);
    PlanNseTwoInserts(snap, row1, row2, parse);
    assert [row1] + [row2] == [row1, row2];
    RefusedInsertsWriteNothing(docs, [o1.op, o2.op]);
  }

  /** Two records that both yield an insert are planned as those two
      inserts, in order. */
  lemma PlanNseTwoInserts(snap: map<string, Company>, row1: NseRow, row2: NseRow, parse: Parser)
    requires DecideNse(snap, row1, parse).Planned? && DecideNse(snap, row1, parse).op.InsertOne?
    requires DecideNse(snap, row2, parse).Planned? && DecideNse(snap, row2, parse).op.InsertOne?
    ensures PlanNse(snap, [row1, row2], parse)
      == Plan([DecideNse(snap, row1, parse).op, DecideNse(snap, row2, parse).op], 2, 0, 0)
  {
    var rows := [row1, row2];
    PlanNseLast(snap, rows, parse);
    PlanNseLast(snap, [row1], parse);
    assert rows[..1] == [row1];
    assert [row1][..0] == [];
    assert [] + [DecideNse(snap, row1, parse).op] == [DecideNse(snap, row1, parse).op];
  }
}
