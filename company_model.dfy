/** The Company collection: the record the two directory syncs write, the
    constraints its schema declares, the two unique indexes the database
    enforces, and the unordered bulk write both syncs issue. */
module CompanyModel {
  import opened Wrappers

  /** The `listed_exchanges` enum. */
  datatype Exchange = BSE | NSE

  function ExchangeName(e: Exchange): string {
    match e
    case BSE => "BSE"
    case NSE => "NSE"
  }

  /** Casting a string into the `listed_exchanges` enum. */
  function ParseExchange(s: string): (r: Option<Exchange>)
    ensures r.Some? <==> s == "BSE" || s == "NSE"
  {
    if s == "BSE" then Some(BSE) else if s == "NSE" then Some(NSE) else None
  }

  lemma ExchangeNameRoundTrip(e: Exchange, s: string)
    ensures ParseExchange(ExchangeName(e)) == Some(e)
    ensures ParseExchange(s) == Some(e) ==> s == ExchangeName(e)
  {
  }

  /** A numeric field as a sync writes it: a parsed number, JavaScript `null`,
      or the result of a parse that failed (NaN). */
  datatype Numeric = NullValue | NotANumber | Value(v: real)

  /** A Company document. `INDUSTRY`, `NSURL` and `Issuer_Name` may be absent
      from a document a sync builds; the schema decides which absences it
      accepts. Timestamps are not modelled. */
  datatype Company = Company(
    SCRIP_CD: string,
    Scrip_Name: string,
    Status: string,
    GROUP: string,
    FACE_VALUE: Numeric,
    ISIN_NUMBER: string,
    INDUSTRY: Option<string>,
    scrip_id: string,
    Segment: string,
    NSURL: Option<string>,
    Issuer_Name: Option<string>,
    Mktcap: real,
    listed_exchanges: seq<Exchange>)

  /** A `required: true` string: present and not empty. */
  predicate RequiredString(s: string) {
    s != ""
  }

  /** The field constraints of the Company schema: the required strings are
      non-empty, `Status` is in the one-value enum `['Active']`, `FACE_VALUE`
      and `Mktcap` are numbers and `INDUSTRY` is present. `NSURL` and
      `Issuer_Name` are optional; `listed_exchanges` is typed by `Exchange`. */
  predicate SchemaValid(c: Company) {
    && RequiredString(c.SCRIP_CD)
    && RequiredString(c.Scrip_Name)
    && c.Status == "Active"
    && RequiredString(c.GROUP)
    && c.FACE_VALUE.Value?
    && RequiredString(c.ISIN_NUMBER)
    && c.INDUSTRY.Some? && RequiredString(c.INDUSTRY.value)
    && RequiredString(c.scrip_id)
    && RequiredString(c.Segment)
  }

  /** The collection is a map keyed by `ISIN_NUMBER` (unique index); the
      second unique index, on `SCRIP_CD`, is this invariant's second half. */
  predicate UniqueKeys(docs: map<string, Company>) {
    && (forall k :: k in docs ==> docs[k].ISIN_NUMBER == k)
    && (forall k1, k2 :: k1 in docs && k2 in docs && docs[k1].SCRIP_CD == docs[k2].SCRIP_CD ==> k1 == k2)
  }

  /** Under the unique index on `SCRIP_CD`, at most one stored company carries
      any given code (in particular the placeholder 'N/A'). */
  lemma AtMostOnePerScripCode(docs: map<string, Company>, code: string, k1: string, k2: string)
    requires UniqueKeys(docs)
    requires k1 in docs && k2 in docs
    requires docs[k1].SCRIP_CD == code && docs[k2].SCRIP_CD == code
    ensures k1 == k2
  {
  }

  /** One entry of a `bulkWrite` list. An update filters by `ISIN_NUMBER` and
      `$set`s the exchange list and, when given, the two numbers. */
  datatype CompanyOp =
    | InsertOne(document: Company)
    | UpdateOne(filterIsin: string, setMktcap: Option<real>, setFaceValue: Option<real>,
                setExchanges: seq<Exchange>)

  /** The ISIN an operation writes. */
  function OpKey(op: CompanyOp): string {
    match op
    case InsertOne(d) => d.ISIN_NUMBER
    case UpdateOne(k, _, _, _) => k
  }

  /** The `$set` of an update applied to the stored document. */
  function SetFields(c: Company, mktcap: Option<real>, faceValue: Option<real>,
                     exchanges: seq<Exchange>): Company
  {
    c.(Mktcap := mktcap.GetOr(c.Mktcap),
       FACE_VALUE := if faceValue.Some? then Value(faceValue.value) else c.FACE_VALUE,
       listed_exchanges := exchanges)
  }

  predicate ScripCodeTaken(docs: map<string, Company>, code: string) {
    exists k :: k in docs && docs[k].SCRIP_CD == code
  }

  /** One operation against the collection: `Some` of the new contents, or
      `None` for a write error. An insert whose document fails the schema is
      left out of an unordered bulk write before it reaches the database:
      nothing is stored and no write error is reported. An insert that
      repeats a stored ISIN or SCRIP_CD is refused with a write error; an
      update whose filter matches nothing changes nothing and is not an
      error. */
  function ApplyOp(docs: map<string, Company>, op: CompanyOp): (r: Option<map<string, Company>>)
    ensures r.Some? ==> docs.Keys <= r.value.Keys
    ensures op.InsertOne? && SchemaValid(op.document) ==>
      && (r.Some? <==> op.document.ISIN_NUMBER !in docs && !ScripCodeTaken(docs, op.document.SCRIP_CD))
      && (r.Some? ==> r.value == docs[op.document.ISIN_NUMBER := op.document])
    ensures op.InsertOne? && !SchemaValid(op.document) ==> r == Some(docs)
  {
    match op
    case InsertOne(d) =>
      if !SchemaValid(d) then Some(docs)
      else if d.ISIN_NUMBER in docs || ScripCodeTaken(docs, d.SCRIP_CD) then None
      else Some(docs[d.ISIN_NUMBER := d])
    case UpdateOne(k, m, f, ex) =>
      if k in docs then Some(docs[k := SetFields(docs[k], m, f, ex)]) else Some(docs)
  }

  /** The outcome of an unordered bulk write: the final contents and the
      number of `writeErrors`. */
  datatype WriteResult = WriteResult(docs: map<string, Company>, writeErrors: nat)

  /** `bulkWrite(ops, { ordered: false })`: every operation is attempted in
      list order, each on the result of the ones before it; a refused
      operation leaves the contents as they were and counts one write error. */
  function ApplyOps(docs: map<string, Company>, ops: seq<CompanyOp>): (r: WriteResult)
    ensures r.writeErrors <= |ops|
    ensures docs.Keys <= r.docs.Keys
  {
    if ops == [] then WriteResult(docs, 0)
    else
      var w := ApplyOps(docs, ops[..|ops| - 1]);
      match ApplyOp(w.docs, ops[|ops| - 1])
      case None => WriteResult(w.docs, w.writeErrors + 1)
      case Some(d) => WriteResult(d, w.writeErrors)
  }

  /** A bulk write made only of inserts the schema refuses changes nothing
      and reports no write error. */
  lemma {:induction false} RefusedInsertsWriteNothing(docs: map<string, Company>, ops: seq<CompanyOp>)
    requires forall i :: 0 <= i < |ops| ==> ops[i].InsertOne? && !SchemaValid(ops[i].document)
    ensures ApplyOps(docs, ops) == WriteResult(docs, 0)
  {
    if ops != [] {
      RefusedInsertsWriteNothing(docs, ops[..|ops| - 1]);
    }
  }

  /** Every write keeps both unique indexes. */
  lemma ApplyOpKeepsUniqueKeys(docs: map<string, Company>, op: CompanyOp)
    requires UniqueKeys(docs)
    ensures ApplyOp(docs, op).Some? ==> UniqueKeys(ApplyOp(docs, op).value)
  {
  }

  lemma {:induction false} ApplyOpsKeepsUniqueKeys(docs: map<string, Company>, ops: seq<CompanyOp>)
    requires UniqueKeys(docs)
    ensures UniqueKeys(ApplyOps(docs, ops).docs)
  {
    if ops != [] {
      var w := ApplyOps(docs, ops[..|ops| - 1]);
      ApplyOpsKeepsUniqueKeys(docs, ops[..|ops| - 1]);
      ApplyOpKeepsUniqueKeys(w.docs, ops[|ops| - 1]);
    }
  }

  /** A bulk write of `ops + [op]` is the write of `ops` followed by an
      attempt of `op`; with no write error, `op` was accepted. */
  lemma ApplyOpsSnoc(docs: map<string, Company>, ops: seq<CompanyOp>, op: CompanyOp)
    ensures var w := ApplyOps(docs, ops);
      ApplyOps(docs, ops + [op])
      == if ApplyOp(w.docs, op).Some? then WriteResult(ApplyOp(w.docs, op).value, w.writeErrors)
         else WriteResult(w.docs, w.writeErrors + 1)
  {
    assert (ops + [op])[..|ops|] == ops;
  }

  /** The write of the first `i + 1` operations is the write of the first
      `i` followed by one attempt of operation `i`. */
  lemma ApplyOpsStep(docs: map<string, Company>, ops: seq<CompanyOp>, i: nat)
    requires i < |ops|
    ensures var w := ApplyOps(docs, ops[..i]);
      ApplyOps(docs, ops[..i + 1])
      == if ApplyOp(w.docs, ops[i]).Some? then WriteResult(ApplyOp(w.docs, ops[i]).value, w.writeErrors)
         else WriteResult(w.docs, w.writeErrors + 1)
  {
    assert ops[..i + 1][..i] == ops[..i];
  }

  /** A bulk write with no write error accepted every operation. */
  lemma {:induction false} NoWriteErrorsPrefix(docs: map<string, Company>, ops: seq<CompanyOp>, n: nat)
    requires n <= |ops|
    requires ApplyOps(docs, ops).writeErrors == 0
    ensures ApplyOps(docs, ops[..n]).writeErrors == 0
    ensures n < |ops| ==> ApplyOp(ApplyOps(docs, ops[..n]).docs, ops[n]).Some?
  {
    if n < |ops| {
      var init := ops[..|ops| - 1];
      assert ApplyOps(docs, init).writeErrors == 0;
      if n < |ops| - 1 {
        assert init[..n] == ops[..n];
        assert init[n] == ops[n];
        NoWriteErrorsPrefix(docs, init, n);
      } else {
        assert init == ops[..n];
      }
    } else {
      assert ops[..n] == ops;
    }
  }

  /** An operation on another ISIN leaves the entry for `k` as it was. */
  lemma ApplyOpOtherKey(docs: map<string, Company>, op: CompanyOp, k: string)
    requires OpKey(op) != k
    requires ApplyOp(docs, op).Some?
    ensures (k in ApplyOp(docs, op).value <==> k in docs)
    ensures k in docs ==> ApplyOp(docs, op).value[k] == docs[k]
  {
  }

  /** A bulk write none of whose operations names `k` leaves `k` alone. */
  lemma {:induction false} ApplyOpsUntouched(docs: map<string, Company>, ops: seq<CompanyOp>, k: string)
    requires forall i :: 0 <= i < |ops| ==> OpKey(ops[i]) != k
    ensures (k in ApplyOps(docs, ops).docs <==> k in docs)
    ensures k in docs ==> ApplyOps(docs, ops).docs[k] == docs[k]
  {
    if ops != [] {
      var init := ops[..|ops| - 1];
      ApplyOpsUntouched(docs, init, k);
      var w := ApplyOps(docs, init);
      if ApplyOp(w.docs, ops[|ops| - 1]).Some? {
        ApplyOpOtherKey(w.docs, ops[|ops| - 1], k);
      }
    }
  }

  /** A write never removes a company and never changes a stored company's
      `SCRIP_CD`: updates leave it alone and nothing is deleted. */
  lemma {:induction false} ApplyOpsKeepsScripCode(docs: map<string, Company>, ops: seq<CompanyOp>, k: string)
    requires k in docs
    ensures k in ApplyOps(docs, ops).docs && ApplyOps(docs, ops).docs[k].SCRIP_CD == docs[k].SCRIP_CD
  {
    if ops != [] {
      var init := ops[..|ops| - 1];
      ApplyOpsKeepsScripCode(docs, init, k);
      var w := ApplyOps(docs, init).docs;
      match ApplyOp(w, ops[|ops| - 1])
      case None =>
      case Some(d) =>
        assert k in d && d[k].SCRIP_CD == w[k].SCRIP_CD;
    }
  }

  /** The set of exchanges a list names. */
  function Exchanges(s: seq<Exchange>): set<Exchange> {
    set e | e in s
  }

  lemma ExchangesAppend(a: seq<Exchange>, b: seq<Exchange>)
    ensures Exchanges(a + b) == Exchanges(a) + Exchanges(b)
  {
    forall e | e in Exchanges(a) + Exchanges(b) ensures e in Exchanges(a + b) {
      if e in a {
        var i :| 0 <= i < |a| && a[i] == e;
        assert (a + b)[i] == e;
      } else {
        var i :| 0 <= i < |b| && b[i] == e;
        assert (a + b)[|a| + i] == e;
      }
    }
  }

  /** An operation that cannot shrink the exchange list of a company already
      in the snapshot `base`: an update of such a company sets a list that
      names every exchange the snapshot named. */
  predicate KeepsExchanges(base: map<string, Company>, op: CompanyOp) {
    op.UpdateOne? && op.filterIsin in base ==>
      Exchanges(base[op.filterIsin].listed_exchanges) <= Exchanges(op.setExchanges)
  }

  /** Every company of `base` is still present in `now`, listed on at least
      the exchanges it was listed on in `base`. */
  predicate ExchangesGrown(base: map<string, Company>, now: map<string, Company>) {
    forall k :: k in base ==>
      k in now && Exchanges(base[k].listed_exchanges) <= Exchanges(now[k].listed_exchanges)
  }

  /** A plan made of exchange-keeping operations never removes a company or
      an exchange from a company: exchange lists only grow. */
  lemma {:induction false} ApplyOpsGrowsExchanges(base: map<string, Company>, ops: seq<CompanyOp>)
    requires forall i :: 0 <= i < |ops| ==> KeepsExchanges(base, ops[i])
    ensures ExchangesGrown(base, ApplyOps(base, ops).docs)
  {
    if ops != [] {
      var init := ops[..|ops| - 1];
      ApplyOpsGrowsExchanges(base, init);
      var w := ApplyOps(base, init);
      var last := ops[|ops| - 1];
      assert KeepsExchanges(base, last);
      match ApplyOp(w.docs, last)
      case None =>
      case Some(d) =>
        forall k | k in base
          ensures k in d && Exchanges(base[k].listed_exchanges) <= Exchanges(d[k].listed_exchanges)
        {
          if OpKey(last) != k {
            ApplyOpOtherKey(w.docs, last, k);
          }
        }
    }
  }

  /** The per-row bookkeeping of a sync loop: the `bulkOperations` list and
      the inserted / updated / skipped counters. */
  datatype Plan = Plan(ops: seq<CompanyOp>, inserted: nat, updated: nat, skipped: nat)

  /** What the loop decides for one row. */
  datatype RowOutcome = Skipped | Planned(op: CompanyOp)

  /** The operations a row's outcome contributes: its insert or update, or
      none for a skip. */
  function OpsOf(o: RowOutcome): seq<CompanyOp> {
    if o.Planned? then [o.op] else []
  }

  /** Records one row's outcome: an insert or update is pushed and bumps its
      counter, a skip bumps `skippedCount`. */
  function Record(p: Plan, o: RowOutcome): (r: Plan)
    ensures r.inserted + r.updated + r.skipped == p.inserted + p.updated + p.skipped + 1
    ensures r.ops == p.ops + OpsOf(o)
  {
    match o
    case Skipped => p.(skipped := p.skipped + 1)
    case Planned(op) =>
      if op.InsertOne? then Plan(p.ops + [op], p.inserted + 1, p.updated, p.skipped)
      else Plan(p.ops + [op], p.inserted, p.updated + 1, p.skipped)
  }

  /** Two stretches of bookkeeping one after the other: the operation lists
      joined and the counters added. */
  function Then(p: Plan, q: Plan): Plan {
    Plan(p.ops + q.ops, p.inserted + q.inserted, p.updated + q.updated, p.skipped + q.skipped)
  }

  /** Recording a row after two stretches is recording it at the end of the
      second. */
  lemma RecordThen(p: Plan, q: Plan, o: RowOutcome)
    ensures Record(Then(p, q), o) == Then(p, Record(q, o))
  {
    if o.Planned? {
      assert p.ops + q.ops + [o.op] == p.ops + (q.ops + [o.op]);
    }
  }

  /** How a directory sync run ends: no data fetched, the Company read failed,
      the loop threw, or the run finished with its counters (`errors` is the
      number of the bulk write's write errors). */
  datatype SyncOutcome =
    | NoData
    | ReadFailed
    | Aborted
    | Synced(inserted: nat, updated: nat, skipped: nat, errors: nat)

  /** The end state of one sync run: the collection and how the run ended. */
  datatype SyncRun = SyncRun(docs: map<string, Company>, outcome: SyncOutcome)

  /** Lists an exchange at most once. */
  predicate NoDuplicates(s: seq<Exchange>) {
    forall i, j :: 0 <= i < j < |s| ==> s[i] != s[j]
  }

  /** Among the first `n` documents, `existing[j]` is the last one whose
      ISIN is `k`. */
  predicate LastWithIsin(existing: seq<Company>, n: nat, k: string, j: int)
    requires n <= |existing|
  {
    0 <= j < n && existing[j].ISIN_NUMBER == k && forall j' :: j < j' < n ==> existing[j'].ISIN_NUMBER != k
  }

  /** `Map.set(doc.ISIN_NUMBER, doc)` over the documents a read returned:
      when the read lists each stored document once under its own key, the
      resulting snapshot is exactly the collection. */
  lemma SnapshotOfEnumeration(docs: map<string, Company>, rows: seq<Company>, m: map<string, Company>)
    requires UniqueKeys(docs)
    requires forall r :: r in rows ==> r.ISIN_NUMBER in docs && docs[r.ISIN_NUMBER] == r
    requires forall k :: k in docs ==> docs[k] in rows
    requires forall j :: 0 <= j < |rows| ==> rows[j].ISIN_NUMBER in m
    requires forall k :: k in m ==> exists j :: 0 <= j < |rows| && rows[j].ISIN_NUMBER == k && m[k] == rows[j]
    ensures m == docs
  {
    forall k | k in docs ensures k in m {
      var j :| 0 <= j < |rows| && rows[j] == docs[k];
    }
    forall k | k in m ensures k in docs && m[k] == docs[k] {
      var j :| 0 <= j < |rows| && rows[j].ISIN_NUMBER == k && m[k] == rows[j];
      assert rows[j] in rows;
    }
  }

  /** The collection, updated in place by the syncs. */
  class CompanyStore {
    var docs: map<string, Company>

    ghost predicate Valid()
      reads this
    {
      UniqueKeys(docs)
    }

    constructor ()
      ensures Valid() && docs == map[]
    {
      docs := map[];
    }

    /** `Company.find({})`: every stored document once, in no particular
        order. */
    method Find() returns (rows: seq<Company>)
      requires Valid()
      ensures forall r :: r in rows ==> r.ISIN_NUMBER in docs && docs[r.ISIN_NUMBER] == r
      ensures forall k :: k in docs ==> docs[k] in rows
    {
      rows := [];
      var remaining := docs.Keys;
      while remaining != {}
        invariant remaining <= docs.Keys
        invariant forall r :: r in rows ==> r.ISIN_NUMBER in docs && docs[r.ISIN_NUMBER] == r
        invariant forall k :: k in docs && k !in remaining ==> docs[k] in rows
        decreases remaining
      {
        var k :| k in remaining;
        rows := rows + [docs[k]];
        remaining := remaining - {k};
      }
    }

    /** `Company.bulkWrite(ops, { ordered: false })`, returning the number of
        write errors. */
    method BulkWrite(ops: seq<CompanyOp>) returns (writeErrors: nat)
      requires Valid()
      modifies this
      ensures Valid()
      ensures docs == ApplyOps(old(docs), ops).docs
      ensures writeErrors == ApplyOps(old(docs), ops).writeErrors
    {
      ghost var start := docs;
      writeErrors := 0;
      var i := 0;
      while i < |ops|
        invariant 0 <= i <= |ops|
        invariant docs == ApplyOps(start, ops[..i]).docs
        invariant writeErrors == ApplyOps(start, ops[..i]).writeErrors
        invariant UniqueKeys(docs)
      {
        var op := ops[i];
        ApplyOpsStep(start, ops, i);
        ApplyOpKeepsUniqueKeys(docs, op);
        var taken := match op
          case InsertOne(d) => SchemaValid(d) && (d.ISIN_NUMBER in docs || ScripCodeTaken(docs, d.SCRIP_CD))
          case UpdateOne(_, _, _, _) => false;
        if taken {
          writeErrors := writeErrors + 1;
        } else {
          docs := ApplyOp(docs, op).value;
        }
        i := i + 1;
      }
      assert ops[..i] == ops;
    }
  }
}
