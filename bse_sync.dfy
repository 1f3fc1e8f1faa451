/** The daily BSE directory sync: one snapshot of the Company collection, one
    pass over the fetched rows that turns each into a skip, an insert or an
    update, then one unordered bulk write. */
module BseCompanySync {
  import opened Wrappers
  import opened JsText
  import opened CompanyModel

  /** One element of the BSE listing response, as JSON fields. */
  datatype BseRow = BseRow(
    SCRIP_CD: Field,
    Scrip_Name: Field,
    Status: Field,
    GROUP: Field,
    FACE_VALUE: Field,
    ISIN_NUMBER: Field,
    INDUSTRY: Field,
    scrip_id: Field,
    Segment: Field,
    NSURL: Field,
    Issuer_Name: Field,
    Mktcap: Field)

  /** An array element of the response: an object, or JSON `null`. */
  datatype BseItem = NullEntry | Entry(row: BseRow)

  /** `parseFloat` on a string, as an oracle: `None` stands for NaN. */
  type Parser = string -> Option<real>

  /** `parseFloat(field)`; `parseFloat(undefined)` is NaN. */
  function ParseFloat(parse: Parser, f: Field): Option<real> {
    if f.None? then None else parse(f.value)
  }

  /** The row carries the essential data: a truthy ISIN and scrip code and two
      numbers that parse. */
  predicate ValidRow(row: BseRow, parse: Parser) {
    && Truthy(row.ISIN_NUMBER)
    && Truthy(row.SCRIP_CD)
    && ParseFloat(parse, row.FACE_VALUE).Some?
    && ParseFloat(parse, row.Mktcap).Some?
  }

  /** `[...new Set(list)]`: the first occurrence of each exchange, in order. */
  function Dedupe(s: seq<Exchange>): (r: seq<Exchange>)
    ensures Exchanges(r) == Exchanges(s)
    ensures NoDuplicates(r)
  {
    if s == [] then []
    else
      var d := Dedupe(s[..|s| - 1]);
      assert s == s[..|s| - 1] + [s[|s| - 1]];
      ExchangesAppend(s[..|s| - 1], [s[|s| - 1]]);
      ExchangesAppend(d, [s[|s| - 1]]);
      if s[|s| - 1] in d then d else d + [s[|s| - 1]]
  }

  /** A list without repeats is its own dedupe. */
  lemma {:induction false} DedupeOfDistinct(s: seq<Exchange>)
    requires NoDuplicates(s)
    ensures Dedupe(s) == s
  {
    if s != [] {
      var init := s[..|s| - 1];
      DedupeOfDistinct(init);
      assert s[|s| - 1] !in init;
      assert s == init + [s[|s| - 1]];
    }
  }

  /** An exchange occurs at most once in a list without repeats. */
  lemma {:induction false} NoDuplicatesCount(s: seq<Exchange>, e: Exchange)
    requires NoDuplicates(s)
    ensures multiset(s)[e] <= 1
    ensures e in s ==> multiset(s)[e] == 1
  {
    if s != [] {
      var init := s[..|s| - 1];
      assert s == init + [s[|s| - 1]];
      NoDuplicatesCount(init, e);
      if s[|s| - 1] == e {
        assert e !in init;
      }
    }
  }

  /** The position of the first occurrence of `e` in `s`. */
  function FirstIndex(s: seq<Exchange>, e: Exchange): (i: nat)
    requires e in s
    ensures i < |s| && s[i] == e && e !in s[..i]
  {
    if s[0] == e then 0 else 1 + FirstIndex(s[1..], e)
  }

  /** Appending to a list keeps the first occurrence of what it already
      held. */
  lemma {:induction false} FirstIndexAppend(s: seq<Exchange>, x: Exchange, e: Exchange)
    requires e in s
    ensures FirstIndex(s + [x], e) == FirstIndex(s, e)
  {
    if s[0] != e {
      assert (s + [x])[1..] == s[1..] + [x];
      FirstIndexAppend(s[1..], x, e);
    }
  }

  /** The deduplicated list is in first-occurrence order: its elements come
      in the order in which they first occur in the input. With `Dedupe`'s
      own contract (same exchanges, no repeats) this fixes the list. */
  lemma {:induction false} DedupeFirstOccurrenceOrder(s: seq<Exchange>)
    ensures forall e :: e in Dedupe(s) ==> e in s
    ensures forall i, j :: 0 <= i < j < |Dedupe(s)| ==> FirstIndex(s, Dedupe(s)[i]) < FirstIndex(s, Dedupe(s)[j])
  {
    if s != [] {
      var init := s[..|s| - 1];
      var x := s[|s| - 1];
      var d := Dedupe(init);
      assert s == init + [x];
      DedupeFirstOccurrenceOrder(init);
      assert Exchanges(d) == Exchanges(init);
      forall e | e in d ensures FirstIndex(s, e) == FirstIndex(init, e) {
        FirstIndexAppend(init, x, e);
      }
      var r := Dedupe(s);
      if x !in d {
        assert x !in init by { assert x !in Exchanges(init); }
        assert r == d + [x];
        assert FirstIndex(s, x) == |s| - 1 by {
          assert x !in s[..|s| - 1];
        }
        forall i, j | 0 <= i < j < |r| ensures FirstIndex(s, r[i]) < FirstIndex(s, r[j]) {
          assert r[i] == d[i];
          if j < |d| {
            assert r[j] == d[j];
          }
        }
      }
    }
  }

  /** The exchange list an update writes: unchanged when 'BSE' is already
      there, otherwise the list with 'BSE' pushed and then deduplicated. */
  function MergedExchanges(current: seq<Exchange>): seq<Exchange> {
    if BSE in current then current else Dedupe(current + [BSE])
  }

  /** The updated list names every exchange the old one named plus 'BSE';
      it adds 'BSE' exactly once when it was missing; and when the old list had
      no repeats it is the old list in its order, followed by 'BSE' if that was
      missing. No exchange is removed. */
  lemma MergedExchangesSpec(current: seq<Exchange>)
    ensures BSE in MergedExchanges(current)
    ensures Exchanges(MergedExchanges(current)) == Exchanges(current) + {BSE}
    ensures BSE !in current ==> multiset(MergedExchanges(current))[BSE] == 1
    ensures BSE in current ==> MergedExchanges(current) == current
    ensures NoDuplicates(current) ==>
      MergedExchanges(current) == if BSE in current then current else current + [BSE]
  {
    var r := MergedExchanges(current);
    ExchangesAppend(current, [BSE]);
    assert Exchanges([BSE]) == {BSE};
    if BSE !in current {
      NoDuplicatesCount(r, BSE);
      if NoDuplicates(current) {
        DedupeOfDistinct(current + [BSE]);
      }
    }
  }

  /** The document `insertOne` carries for a new ISIN: every string field
      through `String(...)`, the optional URL and issuer only when truthy,
      the parsed numbers, and the exchange list `['BSE']`. */
  function NewBseDocument(row: BseRow, faceValue: real, mktcap: real): Company {
    Company(
      SCRIP_CD := JsString(row.SCRIP_CD),
      Scrip_Name := JsString(row.Scrip_Name),
      Status := JsString(row.Status),
      GROUP := JsString(row.GROUP),
      FACE_VALUE := Value(faceValue),
      ISIN_NUMBER := JsString(row.ISIN_NUMBER),
      INDUSTRY := Some(JsString(row.INDUSTRY)),
      scrip_id := JsString(row.scrip_id),
      Segment := JsString(row.Segment),
      NSURL := if Truthy(row.NSURL) then Some(row.NSURL.value) else None,
      Issuer_Name := if Truthy(row.Issuer_Name) then Some(row.Issuer_Name.value) else None,
      Mktcap := mktcap,
      listed_exchanges := [BSE])
  }

  /** The loop body for one object row, against the snapshot `snap`. */
  function DecideBse(snap: map<string, Company>, row: BseRow, parse: Parser): RowOutcome {
    var newFaceValue := ParseFloat(parse, row.FACE_VALUE);
    var newMktcap := ParseFloat(parse, row.Mktcap);
    if !Truthy(row.ISIN_NUMBER) || !Truthy(row.SCRIP_CD) || newFaceValue.None? || newMktcap.None? then
      Skipped
    else if row.ISIN_NUMBER.value in snap then
      var existing := snap[row.ISIN_NUMBER.value];
      var hasBse := BSE in existing.listed_exchanges;
      if existing.Mktcap != newMktcap.value || existing.FACE_VALUE != Value(newFaceValue.value) || !hasBse then
        Planned(UpdateOne(row.ISIN_NUMBER.value, Some(newMktcap.value), Some(newFaceValue.value),
                          MergedExchanges(existing.listed_exchanges)))
      else
        Skipped
    else
      Planned(InsertOne(NewBseDocument(row, newFaceValue.value, newMktcap.value)))
  }

  /** The whole loop over the fetched array. A `null` element makes the loop
      throw: its property read fails, and so does the one in the `catch`
      handler that logs it, so the run ends before any write (`None`).
      Otherwise every row bumps exactly one of the three counters and every
      insert or update is one entry of the operation list. */
  function PlanBse(snap: map<string, Company>, items: seq<BseItem>, parse: Parser): (r: Option<Plan>)
    ensures r.Some? <==> forall i :: 0 <= i < |items| ==> items[i].Entry?
    ensures r.Some? ==> r.value.inserted + r.value.updated == |r.value.ops|
    ensures r.Some? ==> r.value.inserted + r.value.updated + r.value.skipped == |items|
  {
    if items == [] then Some(Plan([], 0, 0, 0))
    else
      var init := items[..|items| - 1];
      assert forall i :: 0 <= i < |init| ==> init[i] == items[i];
      match PlanBse(snap, init, parse)
      case None => None
      case Some(p) =>
        match items[|items| - 1]
        case NullEntry => None
        case Entry(row) => Some(Record(p, DecideBse(snap, row, parse)))
  }

  lemma PlanBseStep(snap: map<string, Company>, items: seq<BseItem>, i: nat, parse: Parser)
    requires i < |items| && PlanBse(snap, items[..i], parse).Some?
    ensures PlanBse(snap, items[..i + 1], parse) ==
      if items[i].NullEntry? then None
      else Some(Record(PlanBse(snap, items[..i], parse).value, DecideBse(snap, items[i].row, parse)))
  {
    assert items[..i + 1][..i] == items[..i];
  }

  /** The `for` loop of the sync: pushes into `bulkOperations` and bumps the
      counters, against a snapshot the loop never changes. */
  method PlanBseOperations(snap: map<string, Company>, items: seq<BseItem>, parse: Parser)
    returns (aborted: bool, bulkOperations: seq<CompanyOp>, insertedCount: nat, updatedCount: nat, skippedCount: nat)
    ensures aborted <==> PlanBse(snap, items, parse).None?
    ensures !aborted ==> PlanBse(snap, items, parse) == Some(Plan(bulkOperations, insertedCount, updatedCount, skippedCount))
  {
    aborted := false;
    bulkOperations := [];
    insertedCount, updatedCount, skippedCount := 0, 0, 0;
    for i := 0 to |items|
      invariant PlanBse(snap, items[..i], parse) == Some(Plan(bulkOperations, insertedCount, updatedCount, skippedCount))
    {
      PlanBseStep(snap, items, i, parse);
      match items[i]
      case NullEntry =>
        aborted := true;
        return;
      case Entry(row) =>
        bulkOperations, insertedCount, updatedCount, skippedCount :=
          PlanBseRow(snap, row, parse, bulkOperations, insertedCount, updatedCount, skippedCount);
    }
    assert items[..|items|] == items;
  }

  /** The body of the `for` loop for one object row: it pushes the row's
      insert or update, or counts it as skipped. */
  method PlanBseRow(snap: map<string, Company>, row: BseRow, parse: Parser,
                    ops0: seq<CompanyOp>, inserted0: nat, updated0: nat, skipped0: nat)
    returns (bulkOperations: seq<CompanyOp>, insertedCount: nat, updatedCount: nat, skippedCount: nat)
    ensures Plan(bulkOperations, insertedCount, updatedCount, skippedCount)
      == Record(Plan(ops0, inserted0, updated0, skipped0), DecideBse(snap, row, parse))
  {
    bulkOperations, insertedCount, updatedCount, skippedCount := ops0, inserted0, updated0, skipped0;
    var newFaceValue := ParseFloat(parse, row.FACE_VALUE);
    var newMktcap := ParseFloat(parse, row.Mktcap);
    if !Truthy(row.ISIN_NUMBER) || !Truthy(row.SCRIP_CD) || newFaceValue.None? || newMktcap.None? {
      skippedCount := skippedCount + 1;
      return;
    }
    var isin := row.ISIN_NUMBER.value;
    if isin in snap {
      var existing := snap[isin];
      var currentExchanges := existing.listed_exchanges;
      var hasBse := BSE in currentExchanges;
      if existing.Mktcap != newMktcap.value || existing.FACE_VALUE != Value(newFaceValue.value) || !hasBse {
        var updatedExchanges := currentExchanges;
        if !hasBse {
          updatedExchanges := Dedupe(updatedExchanges + [BSE]);
        }
        bulkOperations := bulkOperations + [UpdateOne(isin, Some(newMktcap.value), Some(newFaceValue.value), updatedExchanges)];
        updatedCount := updatedCount + 1;
      } else {
        skippedCount := skippedCount + 1;
      }
    } else {
      bulkOperations := bulkOperations + [InsertOne(NewBseDocument(row, newFaceValue.value, newMktcap.value))];
      insertedCount := insertedCount + 1;
    }
  }

  /** `existingCompanies.forEach(comp => map.set(comp.ISIN_NUMBER, comp))`:
      every document is reachable under its ISIN, and each key holds the last
      document that carries it. */
  method IndexByIsin(existing: seq<Company>) returns (m: map<string, Company>)
    ensures forall j :: 0 <= j < |existing| ==> existing[j].ISIN_NUMBER in m
    ensures forall k :: k in m ==> exists j :: LastWithIsin(existing, |existing|, k, j) && m[k] == existing[j]
  {
    m := map[];
    for i := 0 to |existing|
      invariant forall j :: 0 <= j < i ==> existing[j].ISIN_NUMBER in m
      invariant forall k :: k in m ==> exists j :: LastWithIsin(existing, i, k, j) && m[k] == existing[j]
    {
      m := m[existing[i].ISIN_NUMBER := existing[i]];
      assert LastWithIsin(existing, i + 1, existing[i].ISIN_NUMBER, i);
      forall k | k in m && k != existing[i].ISIN_NUMBER
        ensures exists j :: LastWithIsin(existing, i + 1, k, j) && m[k] == existing[j]
      {
        var j :| LastWithIsin(existing, i, k, j) && m[k] == existing[j];
        assert LastWithIsin(existing, i + 1, k, j);
      }
    }
  }

  /** A whole run of `syncBSECompaniesToDB` on the collection `docs`: the
      fetch result (`None` for a failed request or a response that is not an
      array), whether the read of existing companies fails, and the parser. */
  function BseSync(docs: map<string, Company>, fetched: Option<seq<BseItem>>, readFails: bool, parse: Parser): SyncRun {
    if fetched.None? then SyncRun(docs, NoData)
    else if readFails then SyncRun(docs, ReadFailed)
    else
      match PlanBse(docs, fetched.value, parse)
      case None => SyncRun(docs, Aborted)
      case Some(p) =>
        var w := ApplyOps(docs, p.ops);
        SyncRun(w.docs, Synced(p.inserted, p.updated, p.skipped, w.writeErrors))
  }

  /** `syncBSECompaniesToDB` against the collection object. */
  method SyncBseCompaniesToDb(store: CompanyStore, fetched: Option<seq<BseItem>>, readFails: bool, parse: Parser)
    returns (outcome: SyncOutcome)
    requires store.Valid()
    modifies store
    ensures store.Valid()
    ensures store.docs == BseSync(old(store.docs), fetched, readFails, parse).docs
    ensures outcome == BseSync(old(store.docs), fetched, readFails, parse).outcome
  {
    if fetched.None? {
      return NoData;
    }
    if readFails {
      return ReadFailed;
    }
    var existing := store.Find();
    var snapshot := IndexByIsin(existing);
    forall k | k in snapshot
      ensures exists j :: 0 <= j < |existing| && existing[j].ISIN_NUMBER == k && snapshot[k] == existing[j]
    {
      var j :| LastWithIsin(existing, |existing|, k, j) && snapshot[k] == existing[j];
      assert 0 <= j < |existing| && existing[j].ISIN_NUMBER == k;
    }
    SnapshotOfEnumeration(store.docs, existing, snapshot);
    var aborted, bulkOperations, insertedCount, updatedCount, skippedCount := PlanBseOperations(snapshot, fetched.value, parse);
    if aborted {
      return Aborted;
    }
    var errorCount := 0;
    if |bulkOperations| > 0 {
      errorCount := store.BulkWrite(bulkOperations);
    }
    outcome := Synced(insertedCount, updatedCount, skippedCount, errorCount);
  }

  /** Nothing fetched, a failed read, or a `null` element: the collection is
      left exactly as it was, and no bulk write is issued. */
  lemma BseSyncFailuresWriteNothing(docs: map<string, Company>, fetched: Option<seq<BseItem>>, readFails: bool, parse: Parser)
    requires fetched.None? || readFails || PlanBse(docs, fetched.value, parse).None?
    ensures BseSync(docs, fetched, readFails, parse).docs == docs
    ensures fetched.None? ==> BseSync(docs, fetched, readFails, parse).outcome == NoData
    ensures fetched.Some? && readFails ==> BseSync(docs, fetched, readFails, parse).outcome == ReadFailed
  {
  }

  /** A row without a truthy ISIN or scrip code, or whose face value or market
      capitalisation does not parse, is skipped and produces no operation. */
  lemma InvalidRowSkipped(snap: map<string, Company>, row: BseRow, parse: Parser)
    requires !ValidRow(row, parse)
    ensures DecideBse(snap, row, parse) == Skipped
  {
  }

  /** A valid row whose ISIN the snapshot lacks yields one insert of a
      document listed on exactly ['BSE'] with the parsed numbers, the row's
      texts (a missing one rendered as "undefined"), and the URL and issuer
      only when the row has them. */
  lemma NewIsinInserted(snap: map<string, Company>, row: BseRow, parse: Parser)
    requires ValidRow(row, parse) && row.ISIN_NUMBER.value !in snap
    ensures DecideBse(snap, row, parse).Planned? && DecideBse(snap, row, parse).op.InsertOne?
    ensures var d := DecideBse(snap, row, parse).op.document;
      && d.ISIN_NUMBER == row.ISIN_NUMBER.value
      && d.SCRIP_CD == row.SCRIP_CD.value
      && d.listed_exchanges == [BSE]
      && d.FACE_VALUE == Value(ParseFloat(parse, row.FACE_VALUE).value)
      && d.Mktcap == ParseFloat(parse, row.Mktcap).value
      && d.Scrip_Name == JsString(row.Scrip_Name)
      && d.Status == JsString(row.Status)
      && d.GROUP == JsString(row.GROUP)
      && d.INDUSTRY == Some(JsString(row.INDUSTRY))
      && d.scrip_id == JsString(row.scrip_id)
      && d.Segment == JsString(row.Segment)
      && (row.Scrip_Name.Some? ==> d.Scrip_Name == row.Scrip_Name.value)
      && (row.INDUSTRY.None? ==> d.INDUSTRY == Some("undefined"))
      && (d.NSURL.Some? <==> Truthy(row.NSURL))
      && (d.NSURL.Some? ==> d.NSURL.value == row.NSURL.value)
      && (d.Issuer_Name.Some? <==> Truthy(row.Issuer_Name))
      && (d.Issuer_Name.Some? ==> d.Issuer_Name.value == row.Issuer_Name.value)
  {
  }

  /** For a valid row whose ISIN is in the snapshot: an update is produced
      if and only if the market capitalisation differs, the face value
      differs, or 'BSE' is missing; it sets both numbers and the merged
      exchange list. Otherwise the row is skipped. */
  lemma ExistingIsinUpdatedIffChanged(snap: map<string, Company>, row: BseRow, parse: Parser)
    requires ValidRow(row, parse) && row.ISIN_NUMBER.value in snap
    ensures var e := snap[row.ISIN_NUMBER.value];
      var fv := ParseFloat(parse, row.FACE_VALUE).value;
      var mc := ParseFloat(parse, row.Mktcap).value;
      var changed := e.Mktcap != mc || e.FACE_VALUE != Value(fv) || BSE !in e.listed_exchanges;
      && (changed ==>
            DecideBse(snap, row, parse)
            == Planned(UpdateOne(row.ISIN_NUMBER.value, Some(mc), Some(fv), MergedExchanges(e.listed_exchanges))))
      && (!changed ==> DecideBse(snap, row, parse) == Skipped)
  {
  }

  /** The row needs no write against `d`: it is invalid, or its company is
      stored with the row's market capitalisation and face value and is
      listed on 'BSE'. */
  predicate SettledIn(d: map<string, Company>, row: BseRow, parse: Parser) {
    ValidRow(row, parse) ==>
      var k := row.ISIN_NUMBER.value;
      && k in d
      && d[k].Mktcap == ParseFloat(parse, row.Mktcap).value
      && d[k].FACE_VALUE == Value(ParseFloat(parse, row.FACE_VALUE).value)
      && BSE in d[k].listed_exchanges
  }

  /** The loop skips a row exactly when it is settled in the snapshot. */
  lemma SettledRowSkipped(snap: map<string, Company>, row: BseRow, parse: Parser)
    ensures DecideBse(snap, row, parse) == Skipped <==> SettledIn(snap, row, parse)
  {
  }

  /** Every item is an object row settled in the snapshot. */
  predicate AllSettled(snap: map<string, Company>, items: seq<BseItem>, parse: Parser) {
    forall i :: 0 <= i < |items| ==> items[i].Entry? && SettledIn(snap, items[i].row, parse)
  }

  /** When every row is settled the loop plans no write and counts every row
      as skipped. */
  lemma {:induction false} AllSettledPlansNothing(snap: map<string, Company>, items: seq<BseItem>, parse: Parser)
    requires AllSettled(snap, items, parse)
    ensures PlanBse(snap, items, parse) == Some(Plan([], 0, 0, |items|))
  {
    if items != [] {
      var init := items[..|items| - 1];
      assert AllSettled(snap, init, parse) by {
        forall i | 0 <= i < |init| ensures init[i].Entry? && SettledIn(snap, init[i].row, parse) {
          assert init[i] == items[i];
        }
      }
      AllSettledPlansNothing(snap, init, parse);
      SettledRowSkipped(snap, items[|items| - 1].row, parse);
    }
  }

  /** The document the loop would insert for a valid row passes the Company
      schema. */
  predicate Admitted(row: BseRow, parse: Parser)
    requires ValidRow(row, parse)
  {
    SchemaValid(NewBseDocument(row, ParseFloat(parse, row.FACE_VALUE).value, ParseFloat(parse, row.Mktcap).value))
  }

  /** The row is a fixed point of the sync against `d`: it is invalid; or its
      company is stored with the row's numbers and listed on 'BSE'; or its
      ISIN is not stored and the document the loop builds for it fails the
      schema, so that insert is planned again on every run and dropped
      again. */
  predicate StableIn(d: map<string, Company>, row: BseRow, parse: Parser) {
    ValidRow(row, parse) ==>
      var k := row.ISIN_NUMBER.value;
      if k in d then
        && d[k].Mktcap == ParseFloat(parse, row.Mktcap).value
        && d[k].FACE_VALUE == Value(ParseFloat(parse, row.FACE_VALUE).value)
        && BSE in d[k].listed_exchanges
      else !Admitted(row, parse)
  }

  /** Every item is an object row stable in `d`. */
  predicate AllStable(d: map<string, Company>, items: seq<BseItem>, parse: Parser) {
    forall i :: 0 <= i < |items| ==> items[i].Entry? && StableIn(d, items[i].row, parse)
  }

  /** The number of valid object rows whose ISIN `d` does not hold. */
  function NewIsinRows(d: map<string, Company>, items: seq<BseItem>, parse: Parser): (n: nat)
    ensures n <= |items|
  {
    if items == [] then 0
    else
      var last := items[|items| - 1];
      NewIsinRows(d, items[..|items| - 1], parse)
        + (if last.Entry? && ValidRow(last.row, parse) && last.row.ISIN_NUMBER.value !in d then 1 else 0)
  }

  /** When `d` holds the ISIN of every valid row, no row is new. */
  lemma {:induction false} NoNewIsinRows(d: map<string, Company>, items: seq<BseItem>, parse: Parser)
    requires forall i :: 0 <= i < |items| && items[i].Entry? && ValidRow(items[i].row, parse) ==>
      items[i].row.ISIN_NUMBER.value in d
    ensures NewIsinRows(d, items, parse) == 0
  {
    if items != [] {
      var init := items[..|items| - 1];
      assert forall i :: 0 <= i < |init| ==> init[i] == items[i];
      NoNewIsinRows(d, init, parse);
    }
  }

  /** When every row is stable the loop plans no update: it plans one insert
      for each valid row whose ISIN is not stored, each of a document the
      schema refuses, and skips every other row. */
  lemma {:induction false} AllStablePlansRefusedInserts(snap: map<string, Company>, items: seq<BseItem>, parse: Parser)
    requires AllStable(snap, items, parse)
    ensures PlanBse(snap, items, parse).Some?
    ensures var p := PlanBse(snap, items, parse).value;
      && p.inserted == NewIsinRows(snap, items, parse)
      && p.updated == 0
      && p.skipped == |items| - NewIsinRows(snap, items, parse)
      && forall i :: 0 <= i < |p.ops| ==> p.ops[i].InsertOne? && !SchemaValid(p.ops[i].document)
  {
    if items != [] {
      var init := items[..|items| - 1];
      assert AllStable(snap, init, parse) by {
        forall i | 0 <= i < |init| ensures init[i].Entry? && StableIn(snap, init[i].row, parse) {
          assert init[i] == items[i];
        }
      }
      AllStablePlansRefusedInserts(snap, init, parse);
      var row := items[|items| - 1].row;
      assert StableIn(snap, row, parse);
      var p0 := PlanBse(snap, init, parse).value;
      var o := DecideBse(snap, row, parse);
      assert PlanBse(snap, items, parse) == Some(Record(p0, o));
      SettledRowSkipped(snap, row, parse);
      assert o.Planned? ==> o.op.InsertOne? && !SchemaValid(o.op.document);
    }
  }

  /** `k` is the ISIN of some valid row of `items`. */
  predicate IsValidRowIsin(items: seq<BseItem>, parse: Parser, k: string) {
    exists j :: 0 <= j < |items| && items[j].Entry? && ValidRow(items[j].row, parse)
                && items[j].row.ISIN_NUMBER.value == k
  }

  /** Every planned operation writes the ISIN of a valid row of the input. */
  lemma {:induction false} PlanOpKeys(snap: map<string, Company>, items: seq<BseItem>, parse: Parser)
    requires PlanBse(snap, items, parse).Some?
    ensures var ops := PlanBse(snap, items, parse).value.ops;
      forall i :: 0 <= i < |ops| ==> IsValidRowIsin(items, parse, OpKey(ops[i]))
  {
    if items != [] {
      var init := items[..|items| - 1];
      PlanSnoc(snap, items, parse);
      PlanOpKeys(snap, init, parse);
      var ops0 := PlanBse(snap, init, parse).value.ops;
      var ops := PlanBse(snap, items, parse).value.ops;
      var last := items[|items| - 1].row;
      forall i | 0 <= i < |ops|
        ensures IsValidRowIsin(items, parse, OpKey(ops[i]))
      {
        if i < |ops0| {
          assert ops[i] == ops0[i];
          assert IsValidRowIsin(init, parse, OpKey(ops0[i]));
          var j :| 0 <= j < |init| && init[j].Entry? && ValidRow(init[j].row, parse)
                   && init[j].row.ISIN_NUMBER.value == OpKey(ops0[i]);
          assert items[j] == init[j];
        } else {
          assert DecideBse(snap, last, parse).Planned?;
          assert ValidRow(items[|items| - 1].row, parse);
        }
      }
    }
  }

  /** No two valid object rows share an ISIN. */
  predicate DistinctValidIsins(items: seq<BseItem>, parse: Parser) {
    forall i, j ::
      (0 <= i < j < |items| && items[i].Entry? && items[j].Entry?
       && ValidRow(items[i].row, parse) && ValidRow(items[j].row, parse)) ==>
      items[i].row.ISIN_NUMBER != items[j].row.ISIN_NUMBER
  }

  /** A write to another ISIN keeps a stable row stable. */
  lemma StableAfterOtherWrite(d0: map<string, Company>, op: CompanyOp, row: BseRow, parse: Parser)
    requires ApplyOp(d0, op).Some? && StableIn(d0, row, parse)
    requires ValidRow(row, parse) ==> OpKey(op) != row.ISIN_NUMBER.value
    ensures StableIn(ApplyOp(d0, op).value, row, parse)
  {
    if ValidRow(row, parse) {
      ApplyOpOtherKey(d0, op, row.ISIN_NUMBER.value);
    }
  }

  /** The write planned for a row, once attempted without a write error, makes
      the row stable: an update or an admitted insert settles it, and an
      insert the schema refuses leaves its ISIN unstored. */
  lemma PlannedWriteStabilises(snap: map<string, Company>, d0: map<string, Company>, row: BseRow, parse: Parser)
    requires ValidRow(row, parse) ==> (row.ISIN_NUMBER.value in d0 <==> row.ISIN_NUMBER.value in snap)
    requires DecideBse(snap, row, parse).Planned?
    requires ApplyOp(d0, DecideBse(snap, row, parse).op).Some?
    ensures StableIn(ApplyOp(d0, DecideBse(snap, row, parse).op).value, row, parse)
  {
    var op := DecideBse(snap, row, parse).op;
    if op.UpdateOne? {
      MergedExchangesSpec(snap[op.filterIsin].listed_exchanges);
    }
  }

  /** The plan for the whole list is the plan for all rows but the last,
      followed by the operation of the last row, if it has one. */
  lemma PlanSnoc(snap: map<string, Company>, items: seq<BseItem>, parse: Parser)
    requires items != [] && PlanBse(snap, items, parse).Some?
    ensures PlanBse(snap, items[..|items| - 1], parse).Some? && items[|items| - 1].Entry?
    ensures PlanBse(snap, items, parse).value.ops
      == PlanBse(snap, items[..|items| - 1], parse).value.ops + OpsOf(DecideBse(snap, items[|items| - 1].row, parse))
  {
  }

  /** No valid row of `init` shares the ISIN of the valid row `row`. */
  predicate IsinFresh(init: seq<BseItem>, row: BseRow, parse: Parser) {
    ValidRow(row, parse) ==>
      forall j :: 0 <= j < |init| && init[j].Entry? && ValidRow(init[j].row, parse) ==>
        init[j].row.ISIN_NUMBER != row.ISIN_NUMBER
  }

  /** The writes planned for the rows before the valid row `row`, none of
      which shares its ISIN, leave that ISIN's entry as it was. */
  lemma InitLeavesIsin(docs: map<string, Company>, init: seq<BseItem>, row: BseRow, parse: Parser)
    requires PlanBse(docs, init, parse).Some? && IsinFresh(init, row, parse) && ValidRow(row, parse)
    ensures var d0 := ApplyOps(docs, PlanBse(docs, init, parse).value.ops).docs;
      var k := row.ISIN_NUMBER.value;
      (k in d0 <==> k in docs) && (k in docs ==> d0[k] == docs[k])
  {
    var k := row.ISIN_NUMBER.value;
    var ops0 := PlanBse(docs, init, parse).value.ops;
    PlanOpKeys(docs, init, parse);
    forall i | 0 <= i < |ops0| ensures OpKey(ops0[i]) != k {
      assert IsValidRowIsin(init, parse, OpKey(ops0[i]));
      var j :| 0 <= j < |init| && init[j].Entry? && ValidRow(init[j].row, parse)
               && init[j].row.ISIN_NUMBER.value == OpKey(ops0[i]);
    }
    ApplyOpsUntouched(docs, ops0, k);
  }

  /** A row the loop skips is still stable after the writes planned for the
      rows before it, none of which shares its ISIN. */
  lemma SkippedRowStaysStable(docs: map<string, Company>, init: seq<BseItem>, row: BseRow, parse: Parser)
    requires PlanBse(docs, init, parse).Some? && IsinFresh(init, row, parse)
    requires DecideBse(docs, row, parse) == Skipped
    ensures StableIn(ApplyOps(docs, PlanBse(docs, init, parse).value.ops).docs, row, parse)
  {
    SettledRowSkipped(docs, row, parse);
    if ValidRow(row, parse) {
      InitLeavesIsin(docs, init, row, parse);
    }
  }

  /** Adding a skipped row keeps every row stable. */
  lemma SkipStepStable(docs: map<string, Company>, init: seq<BseItem>, row: BseRow, parse: Parser)
    requires PlanBse(docs, init, parse).Some? && IsinFresh(init, row, parse)
    requires DecideBse(docs, row, parse) == Skipped
    requires AllStable(ApplyOps(docs, PlanBse(docs, init, parse).value.ops).docs, init, parse)
    ensures AllStable(ApplyOps(docs, PlanBse(docs, init, parse).value.ops).docs, init + [Entry(row)], parse)
  {
    SkippedRowStaysStable(docs, init, row, parse);
  }

  /** Adding a row whose write raises no write error keeps every row
      stable. */
  lemma WriteStepStable(docs: map<string, Company>, init: seq<BseItem>, row: BseRow, parse: Parser)
    requires PlanBse(docs, init, parse).Some? && IsinFresh(init, row, parse)
    requires DecideBse(docs, row, parse).Planned?
    requires AllStable(ApplyOps(docs, PlanBse(docs, init, parse).value.ops).docs, init, parse)
    requires ApplyOp(ApplyOps(docs, PlanBse(docs, init, parse).value.ops).docs, DecideBse(docs, row, parse).op).Some?
    ensures AllStable(ApplyOp(ApplyOps(docs, PlanBse(docs, init, parse).value.ops).docs,
                              DecideBse(docs, row, parse).op).value, init + [Entry(row)], parse)
  {
    var d0 := ApplyOps(docs, PlanBse(docs, init, parse).value.ops).docs;
    var op := DecideBse(docs, row, parse).op;
    var d1 := ApplyOp(d0, op).value;
    InitLeavesIsin(docs, init, row, parse);
    PlannedWriteStabilises(docs, d0, row, parse);
    forall j | 0 <= j < |init| ensures StableIn(d1, init[j].row, parse) {
      StableAfterOtherWrite(d0, op, init[j].row, parse);
    }
  }

  /** After a run whose bulk write had no write error, every row is
      stable. */
  lemma {:induction false} PlanStabilises(docs: map<string, Company>, items: seq<BseItem>, parse: Parser)
    requires DistinctValidIsins(items, parse)
    requires PlanBse(docs, items, parse).Some?
    requires ApplyOps(docs, PlanBse(docs, items, parse).value.ops).writeErrors == 0
    ensures AllStable(ApplyOps(docs, PlanBse(docs, items, parse).value.ops).docs, items, parse)
  {
    if items != [] {
      var init := items[..|items| - 1];
      var row := items[|items| - 1].row;
      PlanSnoc(docs, items, parse);
      assert items == init + [Entry(row)];
      var o := DecideBse(docs, row, parse);
      var ops0 := PlanBse(docs, init, parse).value.ops;
      assert DistinctValidIsins(init, parse) by {
        forall i, j | 0 <= i < j < |init| ensures init[i] == items[i] && init[j] == items[j] { }
      }
      assert IsinFresh(init, row, parse) by {
        forall j | 0 <= j < |init| ensures init[j] == items[j] { }
      }
      if o.Skipped? {
        assert ops0 + OpsOf(o) == ops0;
        PlanStabilises(docs, init, parse);
        SkipStepStable(docs, init, row, parse);
      } else {
        ApplyOpsSnoc(docs, ops0, o.op);
        PlanStabilises(docs, init, parse);
        WriteStepStable(docs, init, row, parse);
      }
    }
  }

  /** Re-running the sync on the same listing right after a run that wrote
      without error, when no two valid rows share an ISIN, changes nothing
      and updates nothing: it plans again exactly one insert per valid row
      whose company is still not stored, each of which the schema drops
      again, and skips every other row. */
  lemma BseSyncIdempotent(docs: map<string, Company>, items: seq<BseItem>, parse: Parser)
    requires DistinctValidIsins(items, parse)
    requires BseSync(docs, Some(items), false, parse).outcome.Synced?
    requires BseSync(docs, Some(items), false, parse).outcome.errors == 0
    ensures var docs1 := BseSync(docs, Some(items), false, parse).docs;
      var n := NewIsinRows(docs1, items, parse);
      BseSync(docs1, Some(items), false, parse) == SyncRun(docs1, Synced(n, 0, |items| - n, 0))
  {
    var docs1 := BseSync(docs, Some(items), false, parse).docs;
    PlanStabilises(docs, items, parse);
    AllStablePlansRefusedInserts(docs1, items, parse);
    RefusedInsertsWriteNothing(docs1, PlanBse(docs1, items, parse).value.ops);
  }

  /** When moreover every valid row's document passes the schema, the re-run
      skips every row. */
  lemma BseSyncIdempotentAdmitted(docs: map<string, Company>, items: seq<BseItem>, parse: Parser)
    requires DistinctValidIsins(items, parse)
    requires BseSync(docs, Some(items), false, parse).outcome.Synced?
    requires BseSync(docs, Some(items), false, parse).outcome.errors == 0
    requires forall i :: 0 <= i < |items| && items[i].Entry? && ValidRow(items[i].row, parse) ==>
      Admitted(items[i].row, parse)
    ensures var docs1 := BseSync(docs, Some(items), false, parse).docs;
      BseSync(docs1, Some(items), false, parse) == SyncRun(docs1, Synced(0, 0, |items|, 0))
  {
    var docs1 := BseSync(docs, Some(items), false, parse).docs;
    BseSyncIdempotent(docs, items, parse);
    PlanStabilises(docs, items, parse);
    NoNewIsinRows(docs1, items, parse);
  }

  /** Every planned update sets an exchange list that keeps every exchange
      the company had in the snapshot. */
  lemma {:induction false} PlanKeepsExchanges(snap: map<string, Company>, items: seq<BseItem>, parse: Parser)
    requires PlanBse(snap, items, parse).Some?
    ensures var ops := PlanBse(snap, items, parse).value.ops;
      forall i :: 0 <= i < |ops| ==> KeepsExchanges(snap, ops[i])
  {
    if items != [] {
      var init := items[..|items| - 1];
      PlanKeepsExchanges(snap, init, parse);
      var row := items[|items| - 1].row;
      var o := DecideBse(snap, row, parse);
      if o.Planned? && o.op.UpdateOne? {
        MergedExchangesSpec(snap[o.op.filterIsin].listed_exchanges);
      }
    }
  }

  /** A sync never deletes a company and never removes an exchange from a
      company's list, whatever the listing holds. */
  lemma BseSyncNeverRemovesExchange(docs: map<string, Company>, fetched: Option<seq<BseItem>>, readFails: bool, parse: Parser)
    ensures ExchangesGrown(docs, BseSync(docs, fetched, readFails, parse).docs)
  {
    if fetched.Some? && !readFails && PlanBse(docs, fetched.value, parse).Some? {
      PlanKeepsExchanges(docs, fetched.value, parse);
      ApplyOpsGrowsExchanges(docs, PlanBse(docs, fetched.value, parse).value.ops);
    }
  }

  /** After a run that wrote without error, when no two valid rows share an
      ISIN: a valid row whose company is stored has it listed on 'BSE' with
      the row's numbers; a valid row whose document passes the schema has its
      company stored; and a valid row whose company is not stored had a new
      ISIN and a document the schema refused. */
  lemma BseSyncListsValidRows(docs: map<string, Company>, items: seq<BseItem>, parse: Parser, i: nat)
    requires DistinctValidIsins(items, parse)
    requires i < |items| && items[i].Entry? && ValidRow(items[i].row, parse)
    requires BseSync(docs, Some(items), false, parse).outcome.Synced?
    requires BseSync(docs, Some(items), false, parse).outcome.errors == 0
    ensures var d := BseSync(docs, Some(items), false, parse).docs;
      var row := items[i].row;
      var k := row.ISIN_NUMBER.value;
      && (k in d ==>
            && BSE in d[k].listed_exchanges
            && d[k].Mktcap == ParseFloat(parse, row.Mktcap).value
            && d[k].FACE_VALUE == Value(ParseFloat(parse, row.FACE_VALUE).value))
      && (Admitted(row, parse) ==> k in d)
      && (k !in d ==> k !in docs && !Admitted(row, parse))
  {
    PlanStabilises(docs, items, parse);
  }

  /** Two valid rows with the same ISIN, new to the collection, are both
      planned as inserts. When both documents pass the schema, the unique
      index refuses the second, so the run reports one write error; when
      neither does, both are dropped and nothing is written. */
  lemma BseDuplicateNewIsin(docs: map<string, Company>, row1: BseRow, row2: BseRow, parse: Parser)
    requires ValidRow(row1, parse) && ValidRow(row2, parse)
    requires row1.ISIN_NUMBER == row2.ISIN_NUMBER && row1.ISIN_NUMBER.value !in docs
    requires !ScripCodeTaken(docs, row1.SCRIP_CD.value)
    ensures Admitted(row1, parse) && Admitted(row2, parse) ==>
      BseSync(docs, Some([Entry(row1), Entry(row2)]), false, parse).outcome == Synced(2, 0, 0, 1)
    ensures !Admitted(row1, parse) && !Admitted(row2, parse) ==>
      BseSync(docs, Some([Entry(row1), Entry(row2)]), false, parse) == SyncRun(docs, Synced(2, 0, 0, 0))
  {
    var d1 := NewBseDocument(row1, ParseFloat(parse, row1.FACE_VALUE).value, ParseFloat(parse, row1.Mktcap).value);
    var d2 := NewBseDocument(row2, ParseFloat(parse, row2.FACE_VALUE).value, ParseFloat(parse, row2.Mktcap).value);
    PlanTwoInserts(docs, row1, row2, parse);
    ApplyOpsSnoc(docs, [], InsertOne(d1));
    ApplyOpsSnoc(docs, [InsertOne(d1)], InsertOne(d2));
    assert [] + [InsertOne(d1)] == [InsertOne(d1)];
    assert [InsertOne(d1)] + [InsertOne(d2)] == [InsertOne(d1), InsertOne(d2)];
    if Admitted(row1, parse) {
      assert ApplyOps(docs, [InsertOne(d1)]).docs == docs[d1.ISIN_NUMBER := d1];
    }
  }

  /** Two valid rows whose ISIN is not stored are planned as two inserts. */
  lemma PlanTwoInserts(docs: map<string, Company>, row1: BseRow, row2: BseRow, parse: Parser)
    requires ValidRow(row1, parse) && ValidRow(row2, parse)
    requires row1.ISIN_NUMBER.value !in docs && row2.ISIN_NUMBER.value !in docs
    ensures PlanBse(docs, [Entry(row1), Entry(row2)], parse)
      == Some(Plan([InsertOne(NewBseDocument(row1, ParseFloat(parse, row1.FACE_VALUE).value, ParseFloat(parse, row1.Mktcap).value)),
                    InsertOne(NewBseDocument(row2, ParseFloat(parse, row2.FACE_VALUE).value, ParseFloat(parse, row2.Mktcap).value))],
                   2, 0, 0))
  {
    var items := [Entry(row1), Entry(row2)];
    var o1 := DecideBse(docs, row1, parse);
    var o2 := DecideBse(docs, row2, parse);
    assert o1.Planned? && o1.op.InsertOne? && o2.Planned? && o2.op.InsertOne?;
    assert items[..0] == [];
    PlanBseStep(docs, items, 0, parse);
    PlanBseStep(docs, items, 1, parse);
    assert items[..2] == items;
    assert [] + [o1.op] == [o1.op];
    assert [o1.op] + [o2.op] == [o1.op, o2.op];
  }
}
