/**
 The evidence tools of one specialist branch: `EvidenceToolSession` over the shared evidence records.
 MCP, the clock and every failure of the database or the network are nondeterministic.
 */
module EvidenceSession {
  import opened Common
  import opened Ordering
  import opened Chunking

  datatype SpecialistKind = METRICS | TRACE | LOG

  /** `SpecialistKind.value` */
  function KindName(k: SpecialistKind): string {
    match k
    case METRICS => "metrics"
    case TRACE => "trace"
    case LOG => "log"
  }

  datatype Code =
    | NO_SAFE_MCP_CAPABILITY | MCP_TIMEOUT | MCP_TRANSPORT | MCP_PAYLOAD_TOO_LARGE | MCP_RESULT_INVALID
    | ANALYSIS_TIMEOUT | ANALYSIS_SCHEMA_INVALID | ANALYSIS_UNKNOWN_EVIDENCE | ANALYSIS_INPUT_TRUNCATED
    | ANALYSIS_FAILED

  datatype Scope = Scope(provider: string, scopeId: string, safe: bool)

  datatype Tool = Tool(name: string, capability: string, endpoint: string, schemaValid: bool)

  datatype Draft = Draft(endpoint: string, tool: string, capability: string, inputScope: Scope, normalizedScope: Scope,
                         observedAt: int, text: string)

  /** A row of `evidence_records`; `text` is the canonical JSON of its structured data. */
  datatype Record = Record(run: Id, specialistRun: Id, endpoint: string, evidenceType: string, tool: string,
                           inputScope: Scope, normalizedScope: Scope, observedAt: int, text: string)

  datatype Receipt = Receipt(specialist: SpecialistKind, references: seq<Id>, firstChunks: seq<Chunk>,
                             totalChunks: nat, truncated: bool)

  datatype Outcome<T> = Got(value: T) | Failed(code: Code)

  /** What an external call can do instead of answering. */
  datatype Fault = NoFault | TimesOut | TooLarge | InvalidResult | Transport | OtherError

  datatype Collected = Drafts(drafts: seq<Draft>) | CollectFault(fault: Fault)

  /** How the one persisting transaction can end; it may commit and still finish after the deadline. */
  datatype PersistEnd = Committed | CommittedLate | RolledBack(fault: Fault)

  /**
   What the clock, the collector and the database do during one call of `collect_evidence`; `persisting`
   is also a repeated id, which aborts the transaction.
   */
  datatype Conditions = Conditions(inTime: bool, listing: Fault, answer: Collected, persisting: PersistEnd,
                                   relisting: Fault)

  /** The `except` clauses of `collect_evidence`. */
  function CodeOf(f: Fault): Code {
    match f
    case TimesOut => ANALYSIS_TIMEOUT
    case TooLarge => MCP_PAYLOAD_TOO_LARGE
    case InvalidResult => MCP_RESULT_INVALID
    case Transport => MCP_TRANSPORT
    case _ => ANALYSIS_FAILED
  }

  datatype Request = Request(run: Id, specialistRun: Id, kind: SpecialistKind, scope: Option<Scope>, tools: seq<Tool>)

  /** Which code stands for which fault. */
  predicate Stands(f: Fault, c: Code) {
    && (f == TimesOut <==> c == ANALYSIS_TIMEOUT)
    && (f == TooLarge <==> c == MCP_PAYLOAD_TOO_LARGE)
    && (f == InvalidResult <==> c == MCP_RESULT_INVALID)
    && (f == Transport <==> c == MCP_TRANSPORT)
    && (f in {NoFault, OtherError} <==> c == ANALYSIS_FAILED)
  }

  predicate FailsFor(f: Fault, end: Outcome<Receipt>) {
    end.Failed? && Stands(f, end.code)
  }

  predicate ScopeUsable(r: Request) {
    r.scope.Some? && r.scope.value.provider == "GCP" && r.scope.value.safe
  }

  function CapabilityOf(k: SpecialistKind): string {
    KindName(k) + ".query"
  }

  predicate ToolsFine(r: Request) {
    && (forall i :: 0 <= i < |r.tools| ==>
          r.tools[i].endpoint == KindName(r.kind) && r.tools[i].capability == CapabilityOf(r.kind)
            && r.tools[i].schemaValid)
    && forall i, j :: 0 <= i < j < |r.tools| ==> r.tools[i].name != r.tools[j].name
  }

  const MAX_MCP_CALLS: nat := 5

  /** What the run was approved for: its endpoint and capability, its scope, one of its first five tools. */
  predicate Approved(r: Request, rec: Record) {
    && rec.endpoint == KindName(r.kind) && rec.evidenceType == CapabilityOf(r.kind)
    && r.scope == Some(rec.inputScope) && r.scope == Some(rec.normalizedScope)
    && exists i :: 0 <= i < Min(|r.tools|, MAX_MCP_CALLS) && r.tools[i].name == rec.tool
  }

  // ----- Records -----

  predicate Belongs(rec: Record, run: Id, specialistRun: Id) {
    rec.run == run && rec.specialistRun == specialistRun
  }

  function OwnIds(records: map<Id, Record>, run: Id, specialistRun: Id): set<Id> {
    set id | id in records && Belongs(records[id], run, specialistRun)
  }

  /** `ORDER BY observed_at, id` */
  predicate RecordLess(records: map<Id, Record>, a: Id, b: Id) {
    a in records && b in records &&
    if records[a].observedAt != records[b].observedAt then records[a].observedAt < records[b].observedAt
      else StringLess(a, b)
  }

  function RecordOrder(records: map<Id, Record>): (Id, Id) -> bool {
    (a: Id, b: Id) => RecordLess(records, a, b)
  }

  lemma RecordOrderIsTotal(records: map<Id, Record>, s: set<Id>)
    requires s <= records.Keys
    ensures StrictTotal(RecordOrder(records), s)
  {
    KeyThenIdIsTotal(
      RecordOrder(records),
      id => if id in records then SortKey(records[id].observedAt, 0, 0) else SortKey(0, 0, 0),
      s);
  }

  /** Evidence listed by the time of its observation, at equal times by id. */
  predicate OldestFirst(records: map<Id, Record>, ids: seq<Id>) {
    forall i, j :: 0 <= i < j < |ids| && ids[i] in records && ids[j] in records ==>
      && records[ids[i]].observedAt <= records[ids[j]].observedAt
      && (records[ids[i]].observedAt == records[ids[j]].observedAt ==> StringLess(ids[i], ids[j]))
  }

  function Listing(records: map<Id, Record>, run: Id, specialistRun: Id): (ids: seq<Id>)
    ensures Members(ids) == OwnIds(records, run, specialistRun) && |ids| == |OwnIds(records, run, specialistRun)|
    ensures forall i :: 0 <= i < |ids| ==> ids[i] in records && Belongs(records[ids[i]], run, specialistRun)
    ensures OldestFirst(records, ids)
  {
    var own := OwnIds(records, run, specialistRun);
    RecordOrderIsTotal(records, own);
    var ids := Sorted(RecordOrder(records), own);
    assert forall i :: 0 <= i < |ids| ==> ids[i] in ids;
    ids
  }

  predicate RecordOwned(rec: Record, r: Request) {
    && Belongs(rec, r.run, r.specialistRun) && rec.endpoint == KindName(r.kind)
    && KindName(r.kind) + "." <= rec.evidenceType
  }

  predicate AllOwned(records: map<Id, Record>, r: Request) {
    forall id :: id in OwnIds(records, r.run, r.specialistRun) ==> RecordOwned(records[id], r)
  }

  predicate AllApproved(r: Request, drafts: seq<Draft>) {
    forall i :: 0 <= i < |drafts| ==> Approved(r, RowOf(r, drafts[i]))
  }

  /**
   What a collection of the request answers while the deadline does not interfere. A receipt is empty in
   two cases: nothing may be called for the request, or the specialist run has no evidence and the
   collector found none.
   */
  ghost predicate Told(r: Request, before: map<Id, Record>, o: Conditions, end: Outcome<Receipt>) {
    if !ScopeUsable(r) || r.tools == [] then end.Got? && end.value.references == []
    else if !ToolsFine(r) then end == Outcome.Failed(ANALYSIS_FAILED)
    else if o.listing != NoFault then FailsFor(o.listing, end)
    else if OwnIds(before, r.run, r.specialistRun) != {} then
      if AllOwned(before, r) then end.Got? && end.value.references != []
      else end == Outcome.Failed(ANALYSIS_UNKNOWN_EVIDENCE)
    else if o.answer.CollectFault? then FailsFor(o.answer.fault, end)
    else if !AllApproved(r, o.answer.drafts) then end == Outcome.Failed(ANALYSIS_FAILED)
    else if o.answer.drafts == [] then end.Got? && end.value.references == []
    else if o.persisting.RolledBack? then FailsFor(o.persisting.fault, end)
    else if o.persisting.CommittedLate? then end == Outcome.Failed(ANALYSIS_TIMEOUT)
    else if o.relisting != NoFault then FailsFor(o.relisting, end)
    else end.Got? && end.value.references != []
  }

  predicate AnyTruncated(chunks: seq<Chunk>) {
    exists i :: 0 <= i < |chunks| && chunks[i].truncated
  }

  /** The receipt of persisted records: every reference, the first chunk of each, totals and truncation. */
  function ReceiptOf(kind: SpecialistKind, records: map<Id, Record>, ids: seq<Id>, l: Limits): Receipt
    requires LimitsValid(l) && forall i :: 0 <= i < |ids| ==> ids[i] in records
  {
    if ids == [] then Receipt(kind, [], [], 0, false)
    else
      var last := ids[|ids| - 1];
      var before := ReceiptOf(kind, records, ids[..|ids| - 1], l);
      var chunks := BuildChunks(last, records[last].text, l).value;
      Receipt(kind, before.references + [last],
              before.firstChunks + if chunks == [] then [] else [chunks[0]],
              before.totalChunks + |chunks|,
              before.truncated || AnyTruncated(chunks))
  }

  lemma {:induction false} ReceiptNames(kind: SpecialistKind, records: map<Id, Record>, ids: seq<Id>, l: Limits)
    requires LimitsValid(l) && forall i :: 0 <= i < |ids| ==> ids[i] in records
    ensures ReceiptOf(kind, records, ids, l).references == ids && ReceiptOf(kind, records, ids, l).specialist == kind
  {
    hide BuildChunks, AnyTruncated;
    if ids != [] {
      ReceiptNames(kind, records, ids[..|ids| - 1], l);
    }
  }

  /** A receipt is truncated exactly when some record is longer than the session's budget. */
  lemma {:induction false} ReceiptTruncation(kind: SpecialistKind, records: map<Id, Record>, ids: seq<Id>, l: Limits)
    requires LimitsValid(l) && forall i :: 0 <= i < |ids| ==> ids[i] in records
    ensures ReceiptOf(kind, records, ids, l).truncated <==>
            exists i :: 0 <= i < |ids| && |records[ids[i]].text| > l.maxTotalChars
  {
    hide BuildChunks, AnyTruncated;
    if ids != [] {
      var n := |ids| - 1;
      ReceiptTruncation(kind, records, ids[..n], l);
      TruncatedChunks(ids[n], records[ids[n]].text, l);
      assert forall i :: 0 <= i < n ==> ids[..n][i] == ids[i];
    }
  }

  lemma TruncatedChunks(id: Id, text: string, l: Limits)
    requires LimitsValid(l)
    ensures var chunks := BuildChunks(id, text, l).value;
            AnyTruncated(chunks) <==> |text| > l.maxTotalChars
  {
    var chunks := BuildChunks(id, text, l).value;
    if |text| > l.maxTotalChars {
      CeilBounds(l.maxTotalChars, l.chunkChars, l.maxTotalChars, l.maxChunks);
      assert chunks[0].truncated;
    }
  }

  // ----- The chunks of a receipt -----

  function ChunksOf(records: map<Id, Record>, id: Id, l: Limits): seq<Chunk>
    requires LimitsValid(l) && id in records
  {
    BuildChunks(id, records[id].text, l).value
  }

  ghost function AllChunks(records: map<Id, Record>, ids: seq<Id>, l: Limits): set<Chunk>
    requires LimitsValid(l) && forall i :: 0 <= i < |ids| ==> ids[i] in records
  {
    if ids == [] then {}
    else AllChunks(records, ids[..|ids| - 1], l) + Members(ChunksOf(records, ids[|ids| - 1], l))
  }

  lemma ChunksAreDistinct(records: map<Id, Record>, id: Id, l: Limits)
    requires LimitsValid(l) && id in records
    ensures |Members(ChunksOf(records, id, l))| == |ChunksOf(records, id, l)|
    ensures forall c :: c in Members(ChunksOf(records, id, l)) ==> c.reference == id
  {
    var chunks := ChunksOf(records, id, l);
    assert forall i :: 0 <= i < |chunks| ==> chunks[i].index == i && chunks[i].reference == id;
    DistinctSize(chunks);
  }

  lemma {:induction false} AllChunksOwn(records: map<Id, Record>, ids: seq<Id>, l: Limits)
    requires LimitsValid(l) && forall i :: 0 <= i < |ids| ==> ids[i] in records
    ensures forall c :: c in AllChunks(records, ids, l) ==> c.reference in ids && c.reference in records
    ensures forall c :: c in AllChunks(records, ids, l) ==> c in ChunksOf(records, c.reference, l)
  {
    hide ChunksOf;
    if ids != [] {
      var n := |ids| - 1;
      AllChunksOwn(records, ids[..n], l);
      ChunksAreDistinct(records, ids[n], l);
      assert ids == ids[..n] + [ids[n]];
    }
  }

  lemma ReceiptLast(kind: SpecialistKind, records: map<Id, Record>, ids: seq<Id>, l: Limits)
    requires LimitsValid(l) && ids != [] && forall i :: 0 <= i < |ids| ==> ids[i] in records
    ensures var last := ids[|ids| - 1];
            var chunks := ChunksOf(records, last, l);
            var before, r := ReceiptOf(kind, records, ids[..|ids| - 1], l), ReceiptOf(kind, records, ids, l);
            && r.totalChunks == before.totalChunks + |chunks|
            && r.firstChunks == before.firstChunks + (if chunks == [] then [] else [chunks[0]])
            && AllChunks(records, ids, l) == AllChunks(records, ids[..|ids| - 1], l) + Members(chunks)
  {
    hide BuildChunks, AnyTruncated;
  }

  lemma ReceiptStep(kind: SpecialistKind, records: map<Id, Record>, ids: seq<Id>, n: nat, l: Limits)
    requires LimitsValid(l) && n < |ids| && forall i :: 0 <= i < |ids| ==> ids[i] in records
    ensures var chunks := ChunksOf(records, ids[n], l);
            var before := ReceiptOf(kind, records, ids[..n], l);
            ReceiptOf(kind, records, ids[..n + 1], l)
            == Receipt(kind, before.references + [ids[n]],
                       before.firstChunks + if chunks == [] then [] else [chunks[0]],
                       before.totalChunks + |chunks|,
                       before.truncated || exists i :: 0 <= i < |chunks| && chunks[i].truncated)
  {
    hide BuildChunks;
    assert ids[..n + 1][..n] == ids[..n];
  }

  /** The last record brings chunks that the earlier ones do not have. */
  lemma LastChunksAreNew(records: map<Id, Record>, ids: seq<Id>, l: Limits)
    requires LimitsValid(l) && Distinct(ids) && ids != [] && forall i :: 0 <= i < |ids| ==> ids[i] in records
    ensures var n := |ids| - 1;
            |AllChunks(records, ids[..n], l) + Members(ChunksOf(records, ids[n], l))|
            == |AllChunks(records, ids[..n], l)| + |ChunksOf(records, ids[n], l)|
  {
    hide AllChunks, ChunksOf, Members;
    var n := |ids| - 1;
    AllChunksOwn(records, ids[..n], l);
    ChunksAreDistinct(records, ids[n], l);
    LastIsElsewhere(ids);
    DisjointSizes(AllChunks(records, ids[..n], l), Members(ChunksOf(records, ids[n], l)), ids[n]);
  }

  /** The total that a receipt names counts its records' chunks, and its first chunks are among them. */
  lemma {:induction false} ReceiptCounts(kind: SpecialistKind, records: map<Id, Record>, ids: seq<Id>, l: Limits)
    requires LimitsValid(l) && Distinct(ids) && forall i :: 0 <= i < |ids| ==> ids[i] in records
    ensures |AllChunks(records, ids, l)| == ReceiptOf(kind, records, ids, l).totalChunks
    ensures Members(ReceiptOf(kind, records, ids, l).firstChunks) <= AllChunks(records, ids, l)
  {
    hide ReceiptOf, AllChunks, ChunksOf, Members, Distinct;
    if ids == [] {
      NoReceiptChunks(kind, records, l);
    } else {
      var n := |ids| - 1;
      LastIsElsewhere(ids);
      ReceiptCounts(kind, records, ids[..n], l);
      ReceiptLast(kind, records, ids, l);
      LastChunksAreNew(records, ids, l);
      FirstIsMember(ReceiptOf(kind, records, ids[..n], l).firstChunks, ChunksOf(records, ids[n], l));
    }
  }

  lemma NoReceiptChunks(kind: SpecialistKind, records: map<Id, Record>, l: Limits)
    requires LimitsValid(l)
    ensures AllChunks(records, [], l) == {} && Members<Chunk>([]) == {}
    ensures ReceiptOf(kind, records, [], l) == Receipt(kind, [], [], 0, false)
  {
  }

  lemma DisjointSizes(a: set<Chunk>, b: set<Chunk>, id: Id)
    requires (forall x :: x in a ==> x.reference != id) && forall y :: y in b ==> y.reference == id
    ensures |a + b| == |a| + |b|
  {
    assert a !! b;
  }

  lemma LastIsElsewhere(ids: seq<Id>)
    requires Distinct(ids) && ids != []
    ensures Distinct(ids[..|ids| - 1]) && ids[|ids| - 1] !in ids[..|ids| - 1]
  {
  }

  lemma FirstIsMember(firsts: seq<Chunk>, chunks: seq<Chunk>)
    ensures Members(firsts + if chunks == [] then [] else [chunks[0]]) <= Members(firsts) + Members(chunks)
  {
  }

  /** A receipt shows all its chunks exactly when every record fits one chunk, as far as the budget reaches. */
  lemma {:induction false} ReceiptShowsAll(kind: SpecialistKind, records: map<Id, Record>, ids: seq<Id>, l: Limits)
    requires LimitsValid(l) && forall i :: 0 <= i < |ids| ==> ids[i] in records
    ensures |ReceiptOf(kind, records, ids, l).firstChunks| <= ReceiptOf(kind, records, ids, l).totalChunks
    ensures |ReceiptOf(kind, records, ids, l).firstChunks| == ReceiptOf(kind, records, ids, l).totalChunks <==>
            forall i :: 0 <= i < |ids| ==> Min(|records[ids[i]].text|, l.maxTotalChars) <= l.chunkChars
  {
    if ids != [] {
      hide BuildChunks, AnyTruncated;
      var n := |ids| - 1;
      ReceiptShowsAll(kind, records, ids[..n], l);
      OneChunk(ids[n], records[ids[n]].text, l);
      assert forall i :: 0 <= i < n ==> ids[..n][i] == ids[i];
    }
  }

  /** What a receipt shows of its records: of each that is not empty the chunk with number 0, and nothing else. */
  lemma {:induction false} ReceiptShowsFirst(kind: SpecialistKind, records: map<Id, Record>, ids: seq<Id>, l: Limits)
    requires LimitsValid(l) && forall i :: 0 <= i < |ids| ==> ids[i] in records
    ensures forall c :: c in ReceiptOf(kind, records, ids, l).firstChunks ==> c.index == 0 && c.reference in ids
    ensures forall i :: 0 <= i < |ids| && records[ids[i]].text != "" ==>
            exists c :: c in ReceiptOf(kind, records, ids, l).firstChunks && c.reference == ids[i]
  {
    if ids != [] {
      hide ReceiptOf, ChunksOf;
      var n := |ids| - 1;
      ReceiptShowsFirst(kind, records, ids[..n], l);
      ReceiptLast(kind, records, ids, l);
      FirstChunk(records, ids[n], l);
      assert ids == ids[..n] + [ids[n]];
      forall i | 0 <= i < |ids| && records[ids[i]].text != ""
        ensures exists c :: c in ReceiptOf(kind, records, ids, l).firstChunks && c.reference == ids[i]
      {
        if i < n {
          assert ids[..n][i] == ids[i];
        } else {
          assert ChunksOf(records, ids[n], l)[0] in ReceiptOf(kind, records, ids, l).firstChunks;
        }
      }
    }
  }

  lemma FirstChunk(records: map<Id, Record>, id: Id, l: Limits)
    requires LimitsValid(l) && id in records
    ensures ChunksOf(records, id, l) == [] <==> records[id].text == ""
    ensures ChunksOf(records, id, l) != [] ==>
              ChunksOf(records, id, l)[0].index == 0 && ChunksOf(records, id, l)[0].reference == id
  {
    CeilBounds(Min(|records[id].text|, l.maxTotalChars), l.chunkChars, l.maxTotalChars, l.maxChunks);
  }

  lemma OneChunk(id: Id, text: string, l: Limits)
    requires LimitsValid(l)
    ensures |BuildChunks(id, text, l).value| <= 1 <==> Min(|text|, l.maxTotalChars) <= l.chunkChars
  {
    var n := |BuildChunks(id, text, l).value|;
    CeilBounds(Min(|text|, l.maxTotalChars), l.chunkChars, l.maxTotalChars, l.maxChunks);
    if n >= 2 {
      assert (n - 1) * l.chunkChars >= l.chunkChars;
    }
  }

  /** A chunk of a record of the request's own specialist run. */
  ghost predicate OwnChunk(records: map<Id, Record>, r: Request, l: Limits, c: Chunk)
    requires LimitsValid(l)
  {
    && c.reference in records && Belongs(records[c.reference], r.run, r.specialistRun)
    && c in ChunksOf(records, c.reference, l)
  }

  /** A chunk of a record that the request's session may cite. */
  ghost predicate Readable(records: map<Id, Record>, r: Request, l: Limits, id: Id, index: int)
    requires LimitsValid(l)
  {
    && id in records && RecordOwned(records[id], r) && 0 <= index < |ChunksOf(records, id, l)|
  }

  /** What one specialist was approved for is no evidence of another. */
  lemma {:induction false} ApprovedForOne(r: Request, other: Request, rec: Record)
    requires Approved(r, rec) && RecordOwned(rec, other)
    ensures r.kind == other.kind
  {
    assert KindName(r.kind)[0] == KindName(other.kind)[0];
  }

  /** A receipt is empty, or it is the receipt of all the evidence that the specialist run has. */
  ghost predicate ReceiptTells(receipt: Receipt, records: map<Id, Record>, r: Request, l: Limits)
    requires LimitsValid(l)
  {
    && Distinct(receipt.references) && OldestFirst(records, receipt.references)
    && (receipt.references == [] || Members(receipt.references) == OwnIds(records, r.run, r.specialistRun))
    && (forall i :: 0 <= i < |receipt.references| ==>
          receipt.references[i] in records && Belongs(records[receipt.references[i]], r.run, r.specialistRun))
    && receipt == ReceiptOf(r.kind, records, receipt.references, l)
  }

  lemma EmptyTells(records: map<Id, Record>, r: Request, l: Limits)
    requires LimitsValid(l)
    ensures ReceiptTells(Receipt(r.kind, [], [], 0, false), records, r, l)
  {
  }

  lemma {:induction false} ListingTells(records: map<Id, Record>, r: Request, l: Limits)
    requires LimitsValid(l)
    ensures ReceiptTells(ReceiptOf(r.kind, records, Listing(records, r.run, r.specialistRun), l), records, r, l)
  {
    hide Listing, ReceiptOf, OwnIds;
    var ids := Listing(records, r.run, r.specialistRun);
    ReceiptNames(r.kind, records, ids, l);
    ListingDistinct(records, r.run, r.specialistRun);
  }

  lemma ListingDistinct(records: map<Id, Record>, run: Id, specialistRun: Id)
    ensures Distinct(Listing(records, run, specialistRun))
  {
    var own := OwnIds(records, run, specialistRun);
    RecordOrderIsTotal(records, own);
    IncreasingDistinct(RecordOrder(records), own, Sorted(RecordOrder(records), own));
  }

  lemma {:induction false} FirstChunksOwn(receipt: Receipt, records: map<Id, Record>, r: Request, l: Limits)
    requires LimitsValid(l) && ReceiptTells(receipt, records, r, l)
    ensures forall c :: c in receipt.firstChunks ==> OwnChunk(records, r, l, c)
  {
    hide ReceiptOf, ChunksOf, AllChunks, OwnIds;
    ReceiptCounts(r.kind, records, receipt.references, l);
    AllChunksOwn(records, receipt.references, l);
    forall c | c in receipt.firstChunks
      ensures OwnChunk(records, r, l, c)
    {
      assert c in AllChunks(records, receipt.references, l);
      var i :| 0 <= i < |receipt.references| && receipt.references[i] == c.reference;
    }
  }

  lemma OwnChunkStays(before: map<Id, Record>, after: map<Id, Record>, r: Request, l: Limits, c: Chunk,
                      writer: Option<Id>)
    requires LimitsValid(l) && Adds(before, after, r.run, writer) && OwnChunk(before, r, l, c)
    ensures OwnChunk(after, r, l, c)
  {
  }

  /**
   What the model has been shown: chunks of its own evidence, a receipt's first ones among them, and not
   more than those and one for each other call.
   */
  ghost predicate ServedAgrees(served: set<Chunk>, receipt: Option<Receipt>, toolCalls: nat, records: map<Id, Record>,
                               r: Request, l: Limits)
    requires LimitsValid(l)
  {
    && (forall c :: c in served ==> OwnChunk(records, r, l, c))
    && (receipt.Some? ==> Members(receipt.value.firstChunks) <= served)
    && |served| <= if receipt.Some? then |receipt.value.firstChunks| + toolCalls - 1 else toolCalls
  }

  lemma NothingServed(records: map<Id, Record>, r: Request, l: Limits)
    requires LimitsValid(l)
    ensures ServedAgrees({}, None, 0, records, r, l)
  {
  }

  lemma AdmissionServes(served: set<Chunk>, receipt: Option<Receipt>, n: nat, records: map<Id, Record>, r: Request,
                        l: Limits)
    requires LimitsValid(l) && ServedAgrees(served, receipt, n, records, r, l)
    ensures ServedAgrees(served, receipt, n + 1, records, r, l)
    ensures receipt.Some? ==> served + Members(receipt.value.firstChunks) == served
  {
    hide OwnChunk, Members;
  }

  lemma WritesKeepServed(served: set<Chunk>, receipt: Option<Receipt>, n: nat, before: map<Id, Record>,
                         after: map<Id, Record>, r: Request, l: Limits, writer: Option<Id>)
    requires LimitsValid(l) && ServedAgrees(served, receipt, n, before, r, l) && Adds(before, after, r.run, writer)
    ensures ServedAgrees(served, receipt, n, after, r, l)
  {
    hide OwnChunk, Adds, Members;
    forall c | c in served
      ensures OwnChunk(after, r, l, c)
    {
      OwnChunkStays(before, after, r, l, c, writer);
    }
  }

  lemma ReceiptServes(served: set<Chunk>, receipt: Receipt, n: nat, records: map<Id, Record>, r: Request, l: Limits)
    requires LimitsValid(l) && ServedAgrees(served, None, n, records, r, l) && ReceiptTells(receipt, records, r, l)
    ensures ServedAgrees(served + Members(receipt.firstChunks), Some(receipt), n + 1, records, r, l)
  {
    hide OwnChunk, ReceiptTells;
    FirstChunksOwn(receipt, records, r, l);
    MembersSize(receipt.firstChunks);
    BothSizes(served, Members(receipt.firstChunks));
  }

  lemma ReadServes(served: set<Chunk>, receipt: Option<Receipt>, n: nat, records: map<Id, Record>, r: Request,
                   l: Limits, c: Chunk)
    requires LimitsValid(l) && ServedAgrees(served, receipt, n, records, r, l) && OwnChunk(records, r, l, c)
    ensures ServedAgrees(served + {c}, receipt, n + 1, records, r, l)
  {
    hide OwnChunk, Members;
    BothSizes(served, {c});
  }

  lemma BothSizes(a: set<Chunk>, b: set<Chunk>)
    ensures |a + b| <= |a| + |b|
  {
    assert |a + b| == |a| + |b| - |a * b|;
  }

  lemma {:induction false} MembersSize(chunks: seq<Chunk>)
    ensures |Members(chunks)| <= |chunks|
  {
    if chunks == [] {
      assert Members(chunks) == {};
    } else {
      var n := |chunks| - 1;
      MembersSize(chunks[..n]);
      assert chunks == chunks[..n] + [chunks[n]];
      assert Members(chunks) == Members(chunks[..n]) + {chunks[n]};
    }
  }

  // ----- The shared table -----

  ghost function BatchesIn(batches: map<Id, nat>, specialistRun: Id): nat {
    if specialistRun in batches then batches[specialistRun] else 0
  }

  /** All evidence of a specialist run comes from at most one committed transaction. */
  ghost predicate OneBatchIn(records: map<Id, Record>, batches: map<Id, nat>, run: Id, specialistRun: Id) {
    && BatchesIn(batches, specialistRun) <= 1
    && (OwnIds(records, run, specialistRun) != {} <==> BatchesIn(batches, specialistRun) == 1)
  }

  /** `evidence_records`; `batches` counts the committed collection transactions of each specialist run. */
  class EvidenceStore {
    var records: map<Id, Record>
    ghost var batches: map<Id, nat>

    ghost function Batches(specialistRun: Id): nat
      reads this
    {
      BatchesIn(batches, specialistRun)
    }

    ghost predicate OneBatch(run: Id, specialistRun: Id)
      reads this
    {
      OneBatchIn(records, batches, run, specialistRun)
    }

    /** Workers of other RCA runs write while this one waits. */
    method OtherRunsWrite(run: Id)
      modifies this
      ensures Adds(old(records), records, run, None)
      ensures batches == old(batches)
    {
      var more: map<Id, Record> := *;
      var added := map id | id in more && id !in records && more[id].run != run :: more[id];
      records := records + added;
    }
  }

  /** `after` has all the records of `before`; what is new in this RCA run belongs to one specialist run, if any. */
  ghost predicate Adds(before: map<Id, Record>, after: map<Id, Record>, run: Id, specialistRun: Option<Id>) {
    && (forall id :: id in before ==> id in after && after[id] == before[id])
    && (forall id :: id in after && id !in before ==> after[id].run == run ==>
        specialistRun == Some(after[id].specialistRun))
  }

  /** Evidence that a session adds to its own run is evidence it was approved for. */
  ghost predicate AddsApproved(r: Request, before: map<Id, Record>, after: map<Id, Record>) {
    forall id :: id in after && id !in before && after[id].run == r.run ==> Approved(r, after[id])
  }

  ghost predicate BatchesKept(before: map<Id, nat>, after: map<Id, nat>, specialistRun: Id) {
    forall s :: s != specialistRun ==> (s in before <==> s in after) && (s in before ==> before[s] == after[s])
  }

  lemma AddsNothingElsewhere(before: map<Id, Record>, after: map<Id, Record>, run: Id, specialistRun: Option<Id>,
                             other: Id)
    requires Adds(before, after, run, specialistRun) && specialistRun != Some(other)
    ensures OwnIds(after, run, other) == OwnIds(before, run, other)
  {
  }

  lemma AddsTransitive(a: map<Id, Record>, b: map<Id, Record>, c: map<Id, Record>, run: Id, specialistRun: Option<Id>)
    requires Adds(a, b, run, None) || Adds(a, b, run, specialistRun)
    requires Adds(b, c, run, specialistRun)
    ensures Adds(a, c, run, specialistRun)
  {
  }

  // ----- One transaction's rows -----

  function RowOf(r: Request, d: Draft): Record {
    Record(r.run, r.specialistRun, d.endpoint, d.capability, d.tool, d.inputScope, d.normalizedScope, d.observedAt,
           d.text)
  }

  /** Every draft became a row of its own under a new id, and nothing else was added. */
  ghost predicate StoredAs(r: Request, before: map<Id, Record>, after: map<Id, Record>, drafts: seq<Draft>,
                           ids: seq<Id>) {
    && |ids| == |drafts| && Distinct(ids)
    && after.Keys == before.Keys + Members(ids) && before.Keys !! Members(ids)
    && (forall id :: id in before ==> after[id] == before[id])
    && forall i :: 0 <= i < |ids| ==> after[ids[i]] == RowOf(r, drafts[i])
  }

  lemma NewRow(r: Request, before: map<Id, Record>, after: map<Id, Record>, drafts: seq<Draft>, ids: seq<Id>, id: Id)
    returns (i: nat)
    requires StoredAs(r, before, after, drafts, ids) && id in after && id !in before
    ensures i < |drafts| && after[id] == RowOf(r, drafts[i])
  {
    assert id in Members(ids);
    i :| 0 <= i < |ids| && ids[i] == id;
  }

  /** Records that keep the old ones and add, under the new ids, records of one specialist run. */
  ghost predicate GrowsBy(r: Request, before: map<Id, Record>, after: map<Id, Record>, ids: set<Id>) {
    && after.Keys == before.Keys + ids && before.Keys !! ids
    && (forall id :: id in before ==> after[id] == before[id])
    && forall id :: id in ids ==> Belongs(after[id], r.run, r.specialistRun)
  }

  lemma GrowthAdds(r: Request, before: map<Id, Record>, after: map<Id, Record>, ids: set<Id>)
    requires GrowsBy(r, before, after, ids)
    ensures Adds(before, after, r.run, Some(r.specialistRun))
    ensures OwnIds(after, r.run, r.specialistRun) == OwnIds(before, r.run, r.specialistRun) + ids
  {
  }

  lemma {:induction false} StoredGrows(r: Request, before: map<Id, Record>, after: map<Id, Record>,
                                       drafts: seq<Draft>, ids: seq<Id>)
    requires StoredAs(r, before, after, drafts, ids)
    ensures GrowsBy(r, before, after, Members(ids)) && |Members(ids)| == |drafts|
  {
    DistinctSize(ids);
  }

  /** What storing drafts adds: rows of this specialist run, all of them approved if the drafts are. */
  lemma {:induction false} StoredRows(r: Request, before: map<Id, Record>, after: map<Id, Record>, drafts: seq<Draft>,
                                      ids: seq<Id>)
    requires StoredAs(r, before, after, drafts, ids)
    ensures Adds(before, after, r.run, Some(r.specialistRun))
    ensures (forall i :: 0 <= i < |drafts| ==> Approved(r, RowOf(r, drafts[i]))) ==> AddsApproved(r, before, after)
    ensures OwnIds(after, r.run, r.specialistRun) == OwnIds(before, r.run, r.specialistRun) + Members(ids)
    ensures |Members(ids)| == |drafts|
  {
    hide Approved, StoredAs, Members, OwnIds, Adds, GrowsBy;
    StoredGrows(r, before, after, drafts, ids);
    GrowthAdds(r, before, after, Members(ids));
    forall id | id in after && id !in before
      ensures exists i :: 0 <= i < |drafts| && after[id] == RowOf(r, drafts[i])
    {
      var i := NewRow(r, before, after, drafts, ids, id);
    }
  }

  lemma NothingYet(r: Request, records: map<Id, Record>)
    ensures StoredAs(r, records, records, [], [])
  {
  }

  lemma {:induction false} AddRow(r: Request, before: map<Id, Record>, after: map<Id, Record>, drafts: seq<Draft>,
                                  ids: seq<Id>, id: Id, d: Draft)
    requires StoredAs(r, before, after, drafts, ids) && id !in after
    ensures StoredAs(r, before, after[id := RowOf(r, d)], drafts + [d], ids + [id])
  {
    assert Members(ids + [id]) == Members(ids) + {id};
  }

  /** What a collection may do to the table: besides what other runs write, one transaction stores approved drafts. */
  ghost predicate Collects(r: Request, before: map<Id, Record>, after: map<Id, Record>, drafts: seq<Draft>) {
    && OwnIds(before, r.run, r.specialistRun) == {} && drafts != [] && AllApproved(r, drafts)
    && exists mid: map<Id, Record>, ids: seq<Id> ::
         StoredAs(r, mid, after, drafts, ids) && Adds(before, mid, r.run, None)
  }

  /** Rows of approved drafts are evidence that the session may cite. */
  lemma {:induction false} StoredIsOwned(r: Request, before: map<Id, Record>, after: map<Id, Record>,
                                         drafts: seq<Draft>, ids: seq<Id>)
    requires StoredAs(r, before, after, drafts, ids) && AllApproved(r, drafts)
    requires OwnIds(before, r.run, r.specialistRun) == {}
    ensures AllOwned(after, r)
  {
    hide OwnIds, StoredAs, RecordOwned, Approved, Members;
    StoredRows(r, before, after, drafts, ids);
    forall id | id in OwnIds(after, r.run, r.specialistRun)
      ensures id in after && RecordOwned(after[id], r)
    {
      OwnIsNew(before, after, r.run, r.specialistRun, id);
      var i := NewRow(r, before, after, drafts, ids, id);
      ApprovedRowIsOwned(r, drafts[i]);
    }
  }

  lemma OwnIsNew(before: map<Id, Record>, after: map<Id, Record>, run: Id, specialistRun: Id, id: Id)
    requires Adds(before, after, run, Some(specialistRun)) && OwnIds(before, run, specialistRun) == {}
    requires id in OwnIds(after, run, specialistRun)
    ensures id in after && id !in before
  {
    assert id in before ==> id in OwnIds(before, run, specialistRun);
  }

  lemma ApprovedRowIsOwned(r: Request, d: Draft)
    requires Approved(r, RowOf(r, d))
    ensures RecordOwned(RowOf(r, d), r)
  {
    assert KindName(r.kind) + ".query" == KindName(r.kind) + "." + "query";
  }

  /** Canonical tools all have the specialist's own capability. */
  lemma AllowedMeans(r: Request, approved: seq<Tool>, d: Draft)
    requires ToolsFine(r) && approved == r.tools[..Min(|r.tools|, MAX_MCP_CALLS)]
    ensures ((d.tool, d.capability) in set i | 0 <= i < |approved| :: (approved[i].name, approved[i].capability)) <==>
            d.capability == CapabilityOf(r.kind)
            && exists i :: 0 <= i < Min(|r.tools|, MAX_MCP_CALLS) && r.tools[i].name == d.tool
  {
    if d.capability == CapabilityOf(r.kind)
      && exists i :: 0 <= i < Min(|r.tools|, MAX_MCP_CALLS) && r.tools[i].name == d.tool {
      var i :| 0 <= i < Min(|r.tools|, MAX_MCP_CALLS) && r.tools[i].name == d.tool;
      assert (approved[i].name, approved[i].capability) == (d.tool, d.capability);
    }
  }

  /** The database has room for another id. */
  lemma {:induction false} NewId(s: set<Id>)
    ensures exists id: Id :: id !in s
  {
    var n := LongestIn(s);
    var id: Id := seq(n + 1, _ => 'x');
    assert id !in s;
  }

  lemma {:induction false} LongestIn(s: set<Id>) returns (n: nat)
    ensures forall id :: id in s ==> |id| <= n
  {
    if s == {} {
      n := 0;
    } else {
      var id :| id in s;
      n := LongestIn(s - {id});
      n := Max(n, |id|);
    }
  }

  /** What other runs write is nothing to this specialist run. */
  lemma OthersAdd(r: Request, before: map<Id, Record>, after: map<Id, Record>)
    requires Adds(before, after, r.run, None)
    ensures Adds(before, after, r.run, Some(r.specialistRun)) && AddsApproved(r, before, after)
    ensures OwnIds(after, r.run, r.specialistRun) == OwnIds(before, r.run, r.specialistRun)
  {
  }

  lemma ApprovedAfter(r: Request, before: map<Id, Record>, waited: map<Id, Record>, after: map<Id, Record>)
    requires Adds(before, waited, r.run, None) && Adds(waited, after, r.run, Some(r.specialistRun))
    requires AddsApproved(r, waited, after)
    ensures AddsApproved(r, before, after)
  {
    hide Approved;
  }

  lemma UnionSize(all: set<Chunk>, some: set<Chunk>)
    ensures |all| <= |all - some| + |some|
  {
    assert all == (all - some) + (all * some);
    assert |all| == |all - some| + |all * some|;
    SubsetSize(all * some, some);
  }

  // ----- One session -----

  class EvidenceToolSession {
    const request: Request
    const limits: Limits
    const maxToolCalls: nat
    const store: EvidenceStore
    var toolCalls: nat
    var receipt: Option<Receipt>
    var terminalError: Option<Code>
    ghost var collectorRuns: nat
    /** The chunks that the two tools have handed to the model. */
    ghost var served: set<Chunk>

    ghost predicate ReceiptFine(r: Receipt)
      reads store
    {
      && r.specialist == request.kind
      && (forall id :: id in r.references ==>
          id in store.records && Belongs(store.records[id], request.run, request.specialistRun))
      && ((exists id :: id in r.references && |store.records[id].text| > limits.maxTotalChars) ==> r.truncated)
      && LimitsValid(limits) && ReceiptTells(r, store.records, request, limits)
    }

    ghost predicate Valid()
      reads this, store
    {
      && LimitsValid(limits) && 1 <= maxToolCalls <= 5
      && toolCalls <= maxToolCalls
      && !(receipt.Some? && terminalError.Some?)
      && collectorRuns <= 1 && (collectorRuns == 1 ==> receipt.Some? || terminalError.Some?)
      && (receipt.Some? ==> ReceiptFine(receipt.value))
      && ServedAgrees(served, receipt, toolCalls, store.records, request, limits)
      && store.OneBatch(request.run, request.specialistRun)
    }

    constructor (request: Request, limits: Limits, maxToolCalls: nat, store: EvidenceStore)
      requires LimitsValid(limits) && 1 <= maxToolCalls <= 5 && store.OneBatch(request.run, request.specialistRun)
      ensures Valid() && receipt == None && terminalError == None && toolCalls == 0 && collectorRuns == 0
              && served == {}
      ensures this.request == request && this.limits == limits && this.maxToolCalls == maxToolCalls
              && this.store == store
    {
      this.request, this.limits, this.maxToolCalls, this.store := request, limits, maxToolCalls, store;
      toolCalls, receipt, terminalError, collectorRuns, served := 0, None, None, 0, {};
      NothingServed(store.records, request, limits);
    }

    /** `_ensure_before_deadline`: the clock may pass the deadline at any moment, unless told otherwise. */
    method Late(inTime: bool) returns (late: bool)
      ensures inTime ==> !late
    {
      late := *;
      late := late && !inTime;
    }

    /** `_admit_tool_call`: the deadline first, then the budget. */
    method AdmitToolCall(inTime: bool) returns (denied: Option<Code>)
      requires Valid()
      modifies this`toolCalls
      ensures Valid()
      ensures denied.None? ==> old(toolCalls) < maxToolCalls && toolCalls == old(toolCalls) + 1
      ensures denied.Some? ==> toolCalls == old(toolCalls) && (denied == Some(ANALYSIS_TIMEOUT) ==> !inTime)
                               && (denied != Some(ANALYSIS_TIMEOUT) ==>
                                     denied == Some(ANALYSIS_FAILED) && toolCalls == maxToolCalls)
    {
      hide ServedAgrees;
      var late := Late(inTime);
      if late {
        return Some(ANALYSIS_TIMEOUT);
      }
      if toolCalls >= maxToolCalls {
        return Some(ANALYSIS_FAILED);
      }
      AdmissionServes(served, receipt, toolCalls, store.records, request, limits);
      toolCalls := toolCalls + 1;
      return None;
    }

    /** `_approved_tools`: `None` when nothing may be called, a failure when the tool set is not canonical. */
    method ApprovedTools() returns (r: Outcome<Option<seq<Tool>>>)
      ensures r == Got(None) <==> !ScopeUsable(request) || request.tools == []
      ensures r.Failed? ==> r.code == ANALYSIS_FAILED && !ToolsFine(request)
      ensures r.Got? && r.value.Some? ==>
                ToolsFine(request) && r.value.value == request.tools[..Min(|request.tools|, MAX_MCP_CALLS)]
    {
      if request.scope.None? || request.scope.value.provider != "GCP" || !request.scope.value.safe {
        return Got(None);
      }
      if request.tools == [] {
        return Got(None);
      }
      var canonical := KindName(request.kind) + ".query";
      var names: set<string> := {};
      for n := 0 to |request.tools|
        invariant ToolsFine(request.(tools := request.tools[..n]))
        invariant names == set i | 0 <= i < n :: request.tools[i].name
      {
        var tool := request.tools[n];
        if tool.endpoint != KindName(request.kind) || tool.capability != canonical || tool.name in names {
          return Outcome.Failed(ANALYSIS_FAILED);
        }
        if !tool.schemaValid {
          return Outcome.Failed(ANALYSIS_FAILED);
        }
        names := names + {tool.name};
      }
      assert request.tools[..|request.tools|] == request.tools;
      return Got(Some(request.tools[..Min(|request.tools|, 5)]));
    }

    /** `_list_persisted` */
    method ListPersisted(inTime: bool, fault: Fault) returns (r: Outcome<seq<Id>>)
      ensures r.Got? ==> fault == NoFault && r.value == Listing(store.records, request.run, request.specialistRun)
      ensures r.Failed? ==> (fault != NoFault && Stands(fault, r.code)) || (!inTime && r.code == ANALYSIS_TIMEOUT)
    {
      if fault != NoFault {
        return Outcome.Failed(CodeOf(fault));
      }
      var late := Late(inTime);
      if late {
        return Outcome.Failed(ANALYSIS_TIMEOUT);
      }
      return Got(Listing(store.records, request.run, request.specialistRun));
    }

    /** `_ensure_record_owned` */
    method EnsureRecordOwned(rec: Record) returns (failed: Option<Code>)
      ensures failed == if RecordOwned(rec, request) then None else Some(ANALYSIS_UNKNOWN_EVIDENCE)
    {
      if rec.run != request.run || rec.specialistRun != request.specialistRun
        || rec.endpoint != KindName(request.kind) || !(KindName(request.kind) + "." <= rec.evidenceType) {
        return Some(ANALYSIS_UNKNOWN_EVIDENCE);
      }
      return None;
    }

    /** `_build_receipt` */
    method BuildReceipt(ids: seq<Id>, inTime: bool) returns (r: Outcome<Receipt>)
      requires LimitsValid(limits) && ids == Listing(store.records, request.run, request.specialistRun)
      ensures r.Got? ==> r.value == ReceiptOf(request.kind, store.records, ids, limits) && ReceiptFine(r.value)
      ensures r.Got? ==> r.value.references == ids && AllOwned(store.records, request)
      ensures r.Failed? ==>
                (r.code == ANALYSIS_UNKNOWN_EVIDENCE && !AllOwned(store.records, request))
                || (r.code == ANALYSIS_TIMEOUT && !inTime)
    {
      hide Listing, RecordOwned, ReceiptTells, ReceiptOf, BuildChunks;
      var references, firstChunks, truncated := [], [], false;
      var totalChunks: nat := 0;
      NoReceiptChunks(request.kind, store.records, limits);
      for n := 0 to |ids|
        invariant Receipt(request.kind, references, firstChunks, totalChunks, truncated)
                  == ReceiptOf(request.kind, store.records, ids[..n], limits)
        invariant forall i :: 0 <= i < n ==> RecordOwned(store.records[ids[i]], request)
      {
        var failed := EnsureRecordOwned(store.records[ids[n]]);
        if failed.Some? {
          assert ids[n] in Members(ids);
          return Outcome.Failed(failed.value);
        }
        ReceiptStep(request.kind, store.records, ids, n, limits);
        var chunks := ChunksOf(store.records, ids[n], limits);
        references := references + [ids[n]];
        firstChunks := firstChunks + if chunks == [] then [] else [chunks[0]];
        totalChunks := totalChunks + |chunks|;
        truncated := truncated || exists i :: 0 <= i < |chunks| && chunks[i].truncated;
      }
      assert ids[..|ids|] == ids;
      var late := Late(inTime);
      if late {
        return Outcome.Failed(ANALYSIS_TIMEOUT);
      }
      ReceiptNames(request.kind, store.records, ids, limits);
      ReceiptTruncation(request.kind, store.records, ids, limits);
      ListingTells(store.records, request, limits);
      assert forall id :: id in Members(ids) ==> RecordOwned(store.records[id], request);
      return Got(Receipt(request.kind, references, firstChunks, totalChunks, truncated));
    }

    method EmptyReceipt(inTime: bool) returns (r: Outcome<Receipt>)
      requires LimitsValid(limits)
      ensures r.Got? ==> ReceiptFine(r.value) && r.value == Receipt(request.kind, [], [], 0, false)
      ensures r.Failed? ==> r.code == ANALYSIS_TIMEOUT && !inTime
    {
      var late := Late(inTime);
      if late {
        return Outcome.Failed(ANALYSIS_TIMEOUT);
      }
      EmptyTells(store.records, request, limits);
      return Got(Receipt(request.kind, [], [], 0, false));
    }

    /** The collector's MCP calls. */
    method RunCollector(inTime: bool, answer: Collected) returns (r: Outcome<seq<Draft>>)
      modifies this`collectorRuns
      ensures collectorRuns == old(collectorRuns) + 1 || (collectorRuns == old(collectorRuns) && !inTime && r.Failed?)
      ensures r.Got? ==> answer == Drafts(r.value)
      ensures r.Failed? ==>
                (answer.CollectFault? && Stands(answer.fault, r.code)) || (!inTime && r.code == ANALYSIS_TIMEOUT)
    {
      var late := Late(inTime);
      if late {
        return Outcome.Failed(ANALYSIS_TIMEOUT);
      }
      collectorRuns := collectorRuns + 1;
      match answer {
        case CollectFault(fault) => return Outcome.Failed(CodeOf(fault));
        case Drafts(drafts) =>
          late := Late(inTime);
          return if late then Outcome.Failed(ANALYSIS_TIMEOUT) else Got(drafts);
      }
    }

    /** `_validated_drafts`: every draft is for the approved scope and comes from one of the approved tools. */
    method ValidatedDrafts(drafts: seq<Draft>, approved: seq<Tool>) returns (failed: Option<Code>)
      requires ToolsFine(request) && approved == request.tools[..Min(|request.tools|, MAX_MCP_CALLS)]
      ensures failed == if AllApproved(request, drafts) then None else Some(ANALYSIS_FAILED)
    {
      var allowed := set i | 0 <= i < |approved| :: (approved[i].name, approved[i].capability);
      for n := 0 to |drafts|
        invariant AllApproved(request, drafts[..n])
      {
        var draft := drafts[n];
        AllowedMeans(request, approved, draft);
        if draft.endpoint != KindName(request.kind) || (draft.tool, draft.capability) !in allowed
          || request.scope.None? || draft.inputScope != request.scope.value
          || draft.normalizedScope != request.scope.value {
          return Some(ANALYSIS_FAILED);
        }
      }
      assert drafts[..|drafts|] == drafts;
      return None;
    }

    /** The inserts of one transaction. */
    method InsertAll(drafts: seq<Draft>) returns (r: map<Id, Record>, ghost ids: seq<Id>)
      ensures StoredAs(request, store.records, r, drafts, ids)
    {
      hide StoredAs;
      var records := store.records;
      ids := [];
      NothingYet(request, store.records);
      for k := 0 to |drafts|
        invariant StoredAs(request, store.records, records, drafts[..k], ids)
      {
        NewId(records.Keys);
        var id: Id :| id !in records.Keys;
        AddRow(request, store.records, records, drafts[..k], ids, id, drafts[k]);
        assert drafts[..k + 1] == drafts[..k] + [drafts[k]];
        records, ids := records[id := RowOf(request, drafts[k])], ids + [id];
      }
      assert drafts[..|drafts|] == drafts;
      return records, ids;
    }

    /**
     `_persist_all`: one transaction inserts every draft as its own row, or none; it may time out having
     committed, but it reports success only when it did.
     */
    method PersistAll(drafts: seq<Draft>, end: PersistEnd) returns (failed: Option<Code>, ghost ids: seq<Id>)
      requires drafts != [] && store.OneBatch(request.run, request.specialistRun)
      requires OwnIds(store.records, request.run, request.specialistRun) == {} && AllApproved(request, drafts)
      modifies store
      ensures store.OneBatch(request.run, request.specialistRun)
      ensures BatchesKept(old(store.batches), store.batches, request.specialistRun)
      ensures Adds(old(store.records), store.records, request.run, Some(request.specialistRun))
      ensures AddsApproved(request, old(store.records), store.records)
      ensures if end.RolledBack? then store.records == old(store.records)
              else StoredAs(request, old(store.records), store.records, drafts, ids)
      ensures match end
              case Committed => failed.None?
              case CommittedLate => failed == Some(ANALYSIS_TIMEOUT)
              case RolledBack(fault) => failed.Some? && Stands(fault, failed.value)
      ensures !end.RolledBack? ==>
                && OwnIds(store.records, request.run, request.specialistRun) == Members(ids)
                && |Members(ids)| == |drafts| && AllOwned(store.records, request)
    {
      hide OwnIds, StoredAs, Approved, Members, AllOwned;
      ids := [];
      if end.RolledBack? {
        return Some(CodeOf(end.fault)), ids;
      }
      var records;
      records, ids := InsertAll(drafts);
      StoredRows(request, store.records, records, drafts, ids);
      StoredIsOwned(request, store.records, records, drafts, ids);
      store.batches := store.batches[request.specialistRun := store.Batches(request.specialistRun) + 1];
      store.records := records;
      failed := if end.CommittedLate? then Some(ANALYSIS_TIMEOUT) else None;
    }

    /**
     The `try` body of `collect_evidence`, run only while no receipt or error is recorded. It answers as
     `Told`, unless the deadline passes. A receipt of a request that may collect lists all the evidence of
     its specialist run; the collector runs exactly when such a request finds no evidence persisted.
     */
    method Collect(o: Conditions) returns (r: Outcome<Receipt>)
      requires Valid() && receipt.None? && terminalError.None?
      modifies this`collectorRuns, store
      ensures collectorRuns <= 1 && store.OneBatch(request.run, request.specialistRun)
      ensures r.Got? ==> ReceiptFine(r.value)
      ensures Told(request, old(store.records), o, r) || (!o.inTime && r == Outcome.Failed(ANALYSIS_TIMEOUT))
      ensures r.Got? && ScopeUsable(request) && request.tools != [] ==>
                Members(r.value.references) == OwnIds(store.records, request.run, request.specialistRun)
      ensures collectorRuns == 1 ==>
                && ScopeUsable(request) && request.tools != [] && ToolsFine(request) && o.listing == NoFault
                && old(OwnIds(store.records, request.run, request.specialistRun)) == {}
      ensures o.inTime && ScopeUsable(request) && request.tools != [] && ToolsFine(request) && o.listing == NoFault ==>
                old(OwnIds(store.records, request.run, request.specialistRun)) == {} ==> collectorRuns == 1
      ensures Adds(old(store.records), store.records, request.run, Some(request.specialistRun))
      ensures BatchesKept(old(store.batches), store.batches, request.specialistRun)
      ensures AddsApproved(request, old(store.records), store.records)
      ensures old(OwnIds(store.records, request.run, request.specialistRun)) != {} ==>
                OwnIds(store.records, request.run, request.specialistRun)
                == old(OwnIds(store.records, request.run, request.specialistRun))
      ensures Adds(old(store.records), store.records, request.run, None)
              || (o.answer.Drafts? && Collects(request, old(store.records), store.records, o.answer.drafts))
      ensures r.Got? && r.value.references != [] && collectorRuns == 1 ==>
                o.answer.Drafts? && Collects(request, old(store.records), store.records, o.answer.drafts)
    {
      hide Listing, ReceiptOf, StoredAs, ReceiptTells, ServedAgrees, ToolsFine, AllOwned, AllApproved, Stands,
        ScopeUsable, AddsApproved, Adds, OwnIds, BatchesKept, Approved;
      CollectsNothing();
      var approved := ApprovedTools();
      if approved.Failed? {
        return Outcome.Failed(approved.code);
      }
      if approved.value.None? {
        r := EmptyReceipt(o.inTime);
        return;
      }
      var persisted := ListPersisted(o.inTime, o.listing);
      if persisted.Failed? {
        return Outcome.Failed(persisted.code);
      }
      if persisted.value != [] {
        r := BuildReceipt(persisted.value, o.inTime);
        return;
      }
      assert OwnIds(store.records, request.run, request.specialistRun) == {};
      var drafts := RunCollector(o.inTime, o.answer);
      ghost var listed := store.records;
      store.OtherRunsWrite(request.run);
      OthersAdd(request, listed, store.records);
      if drafts.Failed? {
        return Outcome.Failed(drafts.code);
      }
      var invalid := ValidatedDrafts(drafts.value, approved.value.value);
      if invalid.Some? {
        return Outcome.Failed(invalid.value);
      }
      if drafts.value == [] {
        r := EmptyReceipt(o.inTime);
        return;
      }
      ghost var waited := store.records;
      var failed;
      ghost var ids;
      failed, ids := PersistAll(drafts.value, o.persisting);
      AddsTransitive(listed, waited, store.records, request.run, Some(request.specialistRun));
      ApprovedAfter(request, listed, waited, store.records);
      if failed.Some? {
        return Outcome.Failed(failed.value);
      }
      var committed := ListPersisted(o.inTime, o.relisting);
      if committed.Failed? {
        return Outcome.Failed(committed.code);
      }
      if committed.value == [] {
        return Outcome.Failed(ANALYSIS_FAILED);
      }
      r := BuildReceipt(committed.value, o.inTime);
    }

    /**
     `collect_evidence`. A denied call changes nothing. An admitted one repeats the recorded receipt or
     error if there is one, and otherwise records what it returns; so all admitted calls of a session
     agree, the collector runs at most once, and at most one transaction commits evidence.
     */
    method CollectEvidence(o: Conditions) returns (denied: bool, r: Outcome<Receipt>)
      requires Valid()
      modifies this, store
      ensures Valid()
      ensures denied ==>
                && r.Failed? && receipt == old(receipt) && terminalError == old(terminalError)
                && toolCalls == old(toolCalls) && collectorRuns == old(collectorRuns)
                && store.records == old(store.records)
      ensures !denied ==> toolCalls == old(toolCalls) + 1
      ensures !denied && old(receipt).Some? ==> r == Got(old(receipt).value)
      ensures !denied && old(terminalError).Some? ==> r == Outcome.Failed(old(terminalError).value)
      ensures !denied ==> (r.Got? ==> receipt == Some(r.value)) && (r.Failed? ==> terminalError == Some(r.code))
      ensures old(receipt).Some? || old(terminalError).Some? ==>
                receipt == old(receipt) && terminalError == old(terminalError) && collectorRuns == old(collectorRuns)
                && store.records == old(store.records)
      ensures old(toolCalls) == maxToolCalls ==> denied
      ensures denied ==> (r.code == ANALYSIS_TIMEOUT && !o.inTime)
                         || (r.code == ANALYSIS_FAILED && old(toolCalls) == maxToolCalls)
      ensures !denied && old(receipt).None? && old(terminalError).None? ==>
                Told(request, old(store.records), o, r) || (!o.inTime && r == Outcome.Failed(ANALYSIS_TIMEOUT))
      ensures !denied && old(receipt).None? && old(terminalError).None? && r.Got? ==>
                && (ScopeUsable(request) && request.tools != [] ==>
                      Members(r.value.references) == OwnIds(store.records, request.run, request.specialistRun))
                && (r.value.references == [] <==>
                      request.scope.None? || request.scope.value.provider != "GCP" || !request.scope.value.safe
                      || request.tools == []
                      || (old(OwnIds(store.records, request.run, request.specialistRun)) == {}
                          && o.answer == Drafts([])))
      ensures Adds(old(store.records), store.records, request.run, Some(request.specialistRun))
      ensures BatchesKept(old(store.batches), store.batches, request.specialistRun)
      ensures AddsApproved(request, old(store.records), store.records)
      ensures served == if !denied && r.Got? then old(served) + Members(r.value.firstChunks) else old(served)
    {
      hide ServedAgrees, ReceiptTells, Adds, BatchesKept, AddsApproved, OwnIds, Members, ToolsFine, Stands,
        AllOwned, AllApproved;
      CollectsNothing();
      var admission := AdmitToolCall(o.inTime);
      if admission.Some? {
        return true, Outcome.Failed(admission.value);
      }
      if terminalError.Some? {
        return false, Outcome.Failed(terminalError.value);
      }
      if receipt.Some? {
        AdmissionServes(served, receipt, toolCalls, store.records, request, limits);
        return false, Got(receipt.value);
      }
      ghost var before, calls := store.records, toolCalls - 1;
      r := Collect(o);
      WritesKeepServed(served, None, calls, before, store.records, request, limits, Some(request.specialistRun));
      AdmissionServes(served, None, calls, store.records, request, limits);
      if r.Got? {
        ReceiptServes(served, r.value, calls, store.records, request, limits);
        receipt := Some(r.value);
        served := served + Members(r.value.firstChunks);
      } else {
        terminalError := Some(r.code);
      }
      return false, r;
    }

    lemma CollectsNothing()
      ensures Adds(store.records, store.records, request.run, Some(request.specialistRun))
      ensures Adds(store.records, store.records, request.run, None)
      ensures BatchesKept(store.batches, store.batches, request.specialistRun)
      ensures AddsApproved(request, store.records, store.records)
    {
    }

    /** `read_evidence_chunk`: only chunks of records of this session's own specialist run. */
    method ReadEvidenceChunk(evidenceId: Id, index: int, inTime: bool, fault: Fault) returns (r: Outcome<Chunk>)
      requires Valid()
      modifies this`toolCalls, this`served
      ensures Valid() && toolCalls <= old(toolCalls) + 1
      ensures served == if r.Got? then old(served) + {r.value} else old(served)
      ensures r.Got? ==> fault == NoFault && Readable(store.records, request, limits, evidenceId, index)
                         && r.value == ChunksOf(store.records, evidenceId, limits)[index]
      ensures old(toolCalls) == maxToolCalls ==> r.Failed?
      ensures old(toolCalls) < maxToolCalls && inTime && fault == NoFault ==>
                if Readable(store.records, request, limits, evidenceId, index) then r.Got?
                else r == Outcome.Failed(ANALYSIS_UNKNOWN_EVIDENCE)
      ensures old(toolCalls) < maxToolCalls && inTime && fault != NoFault && index >= 0 ==>
                r == Outcome.Failed(if fault == TimesOut then ANALYSIS_TIMEOUT else ANALYSIS_FAILED)
    {
      hide ServedAgrees, ReceiptTells;
      var admission := AdmitToolCall(inTime);
      if admission.Some? {
        return Outcome.Failed(admission.value);
      }
      if index < 0 {
        return Outcome.Failed(ANALYSIS_UNKNOWN_EVIDENCE);
      }
      if fault != NoFault {
        return Outcome.Failed(if fault == TimesOut then ANALYSIS_TIMEOUT else ANALYSIS_FAILED);
      }
      if evidenceId !in OwnIds(store.records, request.run, request.specialistRun) {
        return Outcome.Failed(ANALYSIS_UNKNOWN_EVIDENCE);
      }
      var failed := EnsureRecordOwned(store.records[evidenceId]);
      if failed.Some? {
        return Outcome.Failed(failed.value);
      }
      var chunks := BuildChunks(evidenceId, store.records[evidenceId].text, limits).value;
      var late := Late(inTime);
      if late {
        return Outcome.Failed(ANALYSIS_TIMEOUT);
      }
      if index >= |chunks| {
        return Outcome.Failed(ANALYSIS_UNKNOWN_EVIDENCE);
      }
      ReadServes(served, receipt, toolCalls - 1, store.records, request, limits, chunks[index]);
      served := served + {chunks[index]};
      return Got(chunks[index]);
    }

    /**
     What the model has not been shown. Of the chunks of its receipt's records a session has served at
     most the first ones and one for each further call, so with more chunks than that some stay unread.
     */
    lemma {:induction false} UnreadRemain()
      requires Valid() && receipt.Some?
      ensures var all := AllChunks(store.records, receipt.value.references, limits);
              && |all| == receipt.value.totalChunks
              && |all - served| >= receipt.value.totalChunks - |receipt.value.firstChunks| - (toolCalls - 1)
              && (all <= served ==> receipt.value.totalChunks < |receipt.value.firstChunks| + toolCalls)
    {
      hide ReceiptOf, AllChunks, OwnChunk;
      ReceiptCounts(request.kind, store.records, receipt.value.references, limits);
      var all := AllChunks(store.records, receipt.value.references, limits);
      UnionSize(all, served);
      if all <= served {
        assert all - served == {};
      }
    }

    /** `known_evidence` */
    function KnownEvidence(): (ids: seq<Id>)
      reads this
      ensures receipt.Some? ==> ids == receipt.value.references
    {
      if receipt.None? then [] else receipt.value.references
    }

    /** `input_truncated` */
    function InputTruncated(): bool
      reads this
    {
      receipt.Some? && receipt.value.truncated
    }
  }
}
