/** Creating, refreshing and cancelling native batches
    (internal/gateway/batch_orchestrator.go, internal/gateway/batch_helpers.go).

    What the provider and the database answer is a parameter of each operation, so that its
    contract covers every answer; requests sent to the provider are recorded in order. */
module BatchLifecycle {
  import opened Text
  import opened BatchStore
  import opened BatchPaging

  // Requests with an outside effect, in the order they are issued
  datatype Effect = DeleteFile(fileId: string) | ClearHints(batchId: string) | CancelUpstream(batchId: string)

  datatype BatchRequest = BatchRequest(endpoint: string, inputFileId: string, completionWindow: string)

  datatype Meta = Meta(requestId: string, userPath: string, workflowVersionId: string, usageEnabled: bool)

  // Everything before the upstream call: routing, policy, budget and request preparation
  datatype Preparation =
    | NotPrepared
    | Prepared(providerType: string, originalInputFileId: string, rewrittenInputFileId: string,
               hints: map<string, string>)

  // What the provider answers to a batch call
  datatype Answer = CallFailed | NoBatch | Answered(batch: BatchResponse, hints: map<string, string>)

  datatype CreateError = NotReady | UpstreamFailed | EmptyResponse | MissingBatchId | PersistFailed

  datatype Created = Created(batch: BatchResponse) | CreateFailed(error: CreateError)

  datatype Refreshed = Refreshed(batch: BatchResponse) | RefreshFailed(error: RefreshError)

  datatype RefreshError = BatchNotFound | NotAvailable | ProviderError | StoreFailed

  function FirstNonEmpty(values: seq<string>): string {
    if values == [] then ""
    else if Trim(values[0]) != "" then Trim(values[0])
    else FirstNonEmpty(values[1..])
  }

  function SanitizeMetadata(m: map<string, string>): map<string, string> {
    m - {REQUEST_ID_KEY, USAGE_LOGGED_AT_KEY}
  }

  // Recording input file rewrites

  class PreparationMetadata {
    var originalInputFileId: string
    var rewrittenInputFileId: string

    constructor ()
      ensures originalInputFileId == "" && rewrittenInputFileId == ""
    {
      originalInputFileId, rewrittenInputFileId := "", "";
    }

    /** Keeps the first original and the latest rewritten id of the rewrites that count. */
    method RecordInputFileRewrite(original: string, rewritten: string)
      modifies this
      ensures (originalInputFileId, rewrittenInputFileId)
        == Recorded((old(originalInputFileId), old(rewrittenInputFileId)), (original, rewritten))
    {
      var o, r := Trim(original), Trim(rewritten);
      if o == "" || r == "" || o == r {
        return;
      }
      if originalInputFileId == "" {
        originalInputFileId := o;
      }
      rewrittenInputFileId := r;
    }
  }

  predicate IsRewrite(rewrite: (string, string)) {
    Trim(rewrite.0) != "" && Trim(rewrite.1) != "" && Trim(rewrite.0) != Trim(rewrite.1)
  }

  function Recorded(m: (string, string), rewrite: (string, string)): (string, string) {
    if !IsRewrite(rewrite) then m
    else (if m.0 == "" then Trim(rewrite.0) else m.0, Trim(rewrite.1))
  }

  function RecordedAll(m: (string, string), rewrites: seq<(string, string)>): (string, string) {
    if rewrites == [] then m else Recorded(RecordedAll(m, rewrites[..|rewrites| - 1]), rewrites[|rewrites| - 1])
  }

  /** Through a chain of rewrite stages the first user file and the last derived file stay known. */
  lemma {:induction false} FirstAndLastRewrite(rewrites: seq<(string, string)>, i: nat, j: nat)
    requires i <= j < |rewrites| && IsRewrite(rewrites[i]) && IsRewrite(rewrites[j])
    requires forall k :: 0 <= k < i ==> !IsRewrite(rewrites[k])
    requires forall k :: j < k < |rewrites| ==> !IsRewrite(rewrites[k])
    ensures RecordedAll(("", ""), rewrites) == (Trim(rewrites[i].0), Trim(rewrites[j].1))
  {
    var n := |rewrites| - 1;
    var front := rewrites[..n];
    if j < n {
      FirstAndLastRewrite(front, i, j);
    } else if i < n {
      FirstRewriteKept(front, i);
    } else {
      NothingRecorded(front);
    }
  }

  lemma {:induction false} NothingRecorded(rewrites: seq<(string, string)>)
    requires forall k :: 0 <= k < |rewrites| ==> !IsRewrite(rewrites[k])
    ensures RecordedAll(("", ""), rewrites) == ("", "")
  {
    if rewrites != [] {
      NothingRecorded(rewrites[..|rewrites| - 1]);
    }
  }

  lemma {:induction false} FirstRewriteKept(rewrites: seq<(string, string)>, i: nat)
    requires i < |rewrites| && IsRewrite(rewrites[i])
    requires forall k :: 0 <= k < i ==> !IsRewrite(rewrites[k])
    ensures RecordedAll(("", ""), rewrites).0 == Trim(rewrites[i].0)
  {
    var front := rewrites[..|rewrites| - 1];
    if i < |rewrites| - 1 {
      FirstRewriteKept(front, i);
    } else {
      NothingRecorded(front);
    }
  }

  // Refreshing a stored batch from upstream

  predicate HasCounts(c: Counts) { c.total != 0 || c.completed != 0 || c.failed != 0 }

  predicate HasUsage(u: UsageSummary) {
    || u.inputTokens != 0 || u.outputTokens != 0 || u.totalTokens != 0
    || u.inputCost.Some? || u.outputCost.Some? || u.totalCost.Some?
  }

  function Newest<T>(upstream: Option<T>, stored: Option<T>): Option<T> {
    if upstream.Some? then upstream else stored
  }

  /** Upstream metadata is added under all keys but the gateway's own. */
  function MergeMetadata(stored: map<string, string>, upstream: map<string, string>): map<string, string> {
    if upstream == map[] then stored
    else SanitizeMetadata(stored + (upstream - {"provider", "provider_batch_id"}))
  }

  function Merge(stored: StoredBatch, upstream: BatchResponse): StoredBatch {
    var b := stored.batch;
    stored.(batch := b.(
      status := FirstNonEmpty([upstream.status, b.status]),
      endpoint := FirstNonEmpty([upstream.endpoint, b.endpoint]),
      inputFileId := if Trim(b.inputFileId) == "" then FirstNonEmpty([stored.originalInputFileId, upstream.inputFileId])
                     else b.inputFileId,
      completionWindow := FirstNonEmpty([upstream.completionWindow, b.completionWindow]),
      counts := if HasCounts(upstream.counts) then upstream.counts else b.counts,
      usage := if HasUsage(upstream.usage) then upstream.usage else b.usage,
      results := if |upstream.results| > 0 then upstream.results else b.results,
      inProgressAt := Newest(upstream.inProgressAt, b.inProgressAt),
      completedAt := Newest(upstream.completedAt, b.completedAt),
      failedAt := Newest(upstream.failedAt, b.failedAt),
      cancellingAt := Newest(upstream.cancellingAt, b.cancellingAt),
      cancelledAt := Newest(upstream.cancelledAt, b.cancelledAt),
      metadata := MergeMetadata(b.metadata, upstream.metadata)))
  }

  /** A refresh never touches what identifies the batch. */
  lemma MergeKeepsIdentity(stored: StoredBatch, upstream: BatchResponse)
    ensures Merge(stored, upstream) == stored.(batch := Merge(stored, upstream).batch)
    ensures var b, m := stored.batch, Merge(stored, upstream).batch;
      && m.object_ == b.object_ && m.id == b.id && m.createdAt == b.createdAt && m.provider == b.provider &&
          m.providerBatchId == b.providerBatchId
      && (forall k :: k in {"provider", "provider_batch_id"} ==>
            (k in m.metadata <==> k in b.metadata) && (k in b.metadata ==> m.metadata[k] == b.metadata[k]))
  {
  }

  /** A batch refreshed once with each answer, in order. */
  function MergeAll(stored: StoredBatch, answers: seq<BatchResponse>): StoredBatch {
    if answers == [] then stored else Merge(MergeAll(stored, answers[..|answers| - 1]), answers[|answers| - 1])
  }

  /** Answer `i` is the last that gives something. */
  ghost predicate LastWith<T>(answers: seq<T>, i: nat, given: T -> bool)
    requires i < |answers|
  {
    given(answers[i]) && forall j :: i < j < |answers| ==> !given(answers[j])
  }

  datatype TextField = Status | Endpoint | CompletionWindow

  datatype TimeField = InProgressAt | CompletedAt | FailedAt | CancellingAt | CancelledAt

  function TextOf(b: BatchResponse, field: TextField): string {
    match field
    case Status => b.status
    case Endpoint => b.endpoint
    case CompletionWindow => b.completionWindow
  }

  function TimeOf(b: BatchResponse, field: TimeField): Option<int> {
    match field
    case InProgressAt => b.inProgressAt
    case CompletedAt => b.completedAt
    case FailedAt => b.failedAt
    case CancellingAt => b.cancellingAt
    case CancelledAt => b.cancelledAt
  }

  function GivesText(field: TextField): BatchResponse -> bool { b => Trim(TextOf(b, field)) != "" }
  function GivesTime(field: TimeField): BatchResponse -> bool { b => TimeOf(b, field).Some? }
  predicate GivesCounts(b: BatchResponse) { b.counts != Counts(0, 0, 0) }
  predicate GivesUsage(b: BatchResponse) { b.usage != UsageSummary(0, 0, 0, None, None, None) }
  predicate GivesResults(b: BatchResponse) { b.results != [] }

  /** However many refreshes a batch goes through, each of its fields shows what the last answer
      that said anything about it gave, texts trimmed: later silence never takes it back. */
  lemma {:induction false} LastAnswerStays(stored: StoredBatch, answers: seq<BatchResponse>, i: nat,
                                           text: TextField, time: TimeField)
    requires i < |answers|
    ensures var m := MergeAll(stored, answers).batch;
      && (LastWith(answers, i, GivesText(text)) ==> TextOf(m, text) == Trim(TextOf(answers[i], text)))
      && (LastWith(answers, i, GivesTime(time)) ==> TimeOf(m, time) == TimeOf(answers[i], time))
      && (LastWith(answers, i, GivesCounts) ==> m.counts == answers[i].counts)
      && (LastWith(answers, i, GivesUsage) ==> m.usage == answers[i].usage)
      && (LastWith(answers, i, GivesResults) ==> m.results == answers[i].results)
    decreases |answers|
  {
    hide Trim, HasCounts, HasUsage, Merge, TextOf, TimeOf;
    var n := |answers| - 1;
    var front := answers[..n];
    MergeTakes(MergeAll(stored, front), answers[n], text, time);
    if i < n {
      LastAnswerStays(stored, front, i, text, time);
      TrimTwice(TextOf(answers[i], text));
    }
  }

  /** What one refresh takes from the answer and what it keeps. */
  lemma MergeTakes(stored: StoredBatch, upstream: BatchResponse, text: TextField, time: TimeField)
    ensures var b, m := stored.batch, Merge(stored, upstream).batch;
      && TextOf(m, text) == Trim(TextOf(if GivesText(text)(upstream) then upstream else b, text))
      && TimeOf(m, time) == TimeOf(if GivesTime(time)(upstream) then upstream else b, time)
      && m.counts == (if GivesCounts(upstream) then upstream else b).counts
      && m.usage == (if GivesUsage(upstream) then upstream else b).usage
      && m.results == (if GivesResults(upstream) then upstream else b).results
  {
    hide Trim, FirstNonEmpty;
    FirstOfTwo(TextOf(upstream, text), TextOf(stored.batch, text));
  }

  /** Answer `i` is the first to name an input file. */
  ghost predicate FirstFile(answers: seq<BatchResponse>, i: nat) {
    && i < |answers| && Trim(answers[i].inputFileId) != ""
    && forall j :: 0 <= j < i ==> Trim(answers[j].inputFileId) == ""
  }

  /** The input file id, once known, stays; a batch without one gets the trimmed id of the user's
      original file, or else the first id an answer gives. */
  lemma {:induction false} InputFileStays(stored: StoredBatch, answers: seq<BatchResponse>, i: nat)
    ensures var m, b := MergeAll(stored, answers).batch, stored.batch;
      && (Trim(b.inputFileId) != "" ==> m.inputFileId == b.inputFileId)
      && (Trim(b.inputFileId) == "" && Trim(stored.originalInputFileId) != "" && answers != [] ==>
            m.inputFileId == Trim(stored.originalInputFileId))
      && (Trim(b.inputFileId) == Trim(stored.originalInputFileId) == "" ==>
            && (FirstFile(answers, i) ==> m.inputFileId == Trim(answers[i].inputFileId))
            && ((forall a :: a in answers ==> Trim(a.inputFileId) == "") ==> Trim(m.inputFileId) == ""))
    ensures MergeAll(stored, answers).originalInputFileId == stored.originalInputFileId
    decreases |answers|
  {
    hide Trim, Merge;
    if answers != [] {
      var n := |answers| - 1;
      var front := answers[..n];
      var before := MergeAll(stored, front);
      InputFileStays(stored, front, if i < n then i else 0);
      InputFileOfMerge(before, answers[n]);
      TrimTwice(stored.originalInputFileId);
      TrimTwice(answers[n].inputFileId);
      if i < n {
        TrimTwice(answers[i].inputFileId);
      }
      assert forall j :: 0 <= j < n ==> front[j] == answers[j];
    }
  }

  lemma InputFileOfMerge(stored: StoredBatch, upstream: BatchResponse)
    ensures var b, m := stored.batch, Merge(stored, upstream).batch;
      && (Trim(b.inputFileId) != "" ==> m.inputFileId == b.inputFileId)
      && (Trim(b.inputFileId) == "" ==>
            m.inputFileId == if Trim(stored.originalInputFileId) != "" then Trim(stored.originalInputFileId)
                             else Trim(upstream.inputFileId))
    ensures Merge(stored, upstream).originalInputFileId == stored.originalInputFileId
  {
    hide Trim, FirstNonEmpty;
    FirstOfTwo(stored.originalInputFileId, upstream.inputFileId);
  }

  /** Of the metadata, the gateway's own keys stay as stored, private keys never show, and any
      other key has the value of the last answer that named it. */
  lemma {:induction false} LastMetadataStays(stored: StoredBatch, answers: seq<BatchResponse>, i: nat, key: string)
    requires i < |answers| && key in answers[i].metadata
    requires forall j :: i < j < |answers| ==> key !in answers[j].metadata
    ensures var m := MergeAll(stored, answers).batch.metadata;
      && (key !in {"provider", "provider_batch_id", "request_id", "usage_logged_at"} ==>
            key in m && m[key] == answers[i].metadata[key])
      && (key in {"request_id", "usage_logged_at"} && answers[|answers| - 1].metadata != map[] ==> key !in m)
      && (key in {"provider", "provider_batch_id"} ==>
            (key in m <==> key in stored.batch.metadata)
            && (key in m ==> m[key] == stored.batch.metadata[key]))
    decreases |answers|
  {
    hide Merge;
    var n := |answers| - 1;
    var front := answers[..n];
    MetadataOfMerge(MergeAll(stored, front), answers[n], key);
    if i < n {
      LastMetadataStays(stored, front, i, key);
    } else if key in {"provider", "provider_batch_id"} {
      GatewayMetadataStays(stored, front, key);
    }
  }

  lemma {:induction false} GatewayMetadataStays(stored: StoredBatch, answers: seq<BatchResponse>, key: string)
    requires key in {"provider", "provider_batch_id"}
    ensures var m, b := MergeAll(stored, answers).batch.metadata, stored.batch.metadata;
      (key in m <==> key in b) && (key in m ==> m[key] == b[key])
  {
    if answers != [] {
      hide Merge;
      GatewayMetadataStays(stored, answers[..|answers| - 1], key);
      MetadataOfMerge(MergeAll(stored, answers[..|answers| - 1]), answers[|answers| - 1], key);
    }
  }

  lemma MetadataOfMerge(stored: StoredBatch, upstream: BatchResponse, key: string)
    ensures var m, b, u := Merge(stored, upstream).batch.metadata, stored.batch.metadata, upstream.metadata;
      var own := key in {"provider", "provider_batch_id"};
      && (u == map[] ==> m == b)
      && (u != map[] && key in {"request_id", "usage_logged_at"} ==> key !in m)
      && (key !in {"request_id", "usage_logged_at"} ==>
            && (key in m <==> key in b || (key in u && !own))
            && (key in m ==> m[key] == if key in u && !own then u[key] else b[key]))
  {
    hide Trim, FirstNonEmpty, HasCounts, HasUsage;
  }

  lemma TrimTwice(s: string)
    ensures Trim(Trim(s)) == Trim(s)
  {
    TrimIsTrimmed(s);
    TrimFixed(Trim(s));
  }

  /** An answer that says nothing about a batch leaves it as it is, exactly when the batch names
      its input file or has none to be given: an inline batch stays without one. */
  lemma EmptyAnswerChangesNothing(stored: StoredBatch, upstream: BatchResponse)
    requires Trim(upstream.status) == "" && Trim(upstream.endpoint) == "" && Trim(upstream.completionWindow) == ""
    requires !HasCounts(upstream.counts) && !HasUsage(upstream.usage) && upstream.results == [] &&
        upstream.metadata == map[]
    requires upstream.inProgressAt.None? && upstream.completedAt.None? && upstream.failedAt.None?
    requires upstream.cancellingAt.None? && upstream.cancelledAt.None?
    requires Trimmed(stored.batch.status) && Trimmed(stored.batch.endpoint) && Trimmed(stored.batch.completionWindow)
    ensures Merge(stored, upstream) == stored <==>
      || Trim(stored.batch.inputFileId) != ""
      || stored.batch.inputFileId == FirstNonEmpty([stored.originalInputFileId, upstream.inputFileId])
  {
    hide Trim, Trimmed, FirstNonEmpty;
    var b := stored.batch;
    FirstOfTwo(upstream.status, b.status);
    FirstOfTwo(upstream.endpoint, b.endpoint);
    FirstOfTwo(upstream.completionWindow, b.completionWindow);
    TrimFixed(b.status);
    TrimFixed(b.endpoint);
    TrimFixed(b.completionWindow);
  }

  lemma FirstOfTwo(a: string, b: string)
    ensures FirstNonEmpty([a, b]) == if Trim(a) != "" then Trim(a) else Trim(b)
    ensures Trim(FirstNonEmpty([a, b])) == FirstNonEmpty([a, b])
  {
    assert FirstNonEmpty([b]) == Trim(b) by {
      assert [b][1..] == [];
    }
    assert [a, b][1..] == [b];
    TrimIsTrimmed(a);
    TrimIsTrimmed(b);
    TrimFixed(Trim(a));
    TrimFixed(Trim(b));
  }

  /** Merging the same answer again changes nothing. */
  lemma MergeIsIdempotent(stored: StoredBatch, upstream: BatchResponse)
    ensures Merge(Merge(stored, upstream), upstream) == Merge(stored, upstream)
  {
    hide Trim, FirstNonEmpty;
    var b := stored.batch;
    var m := Merge(stored, upstream).batch;
    FirstOfTwo(upstream.status, b.status);
    FirstOfTwo(upstream.status, m.status);
    FirstOfTwo(upstream.endpoint, b.endpoint);
    FirstOfTwo(upstream.endpoint, m.endpoint);
    FirstOfTwo(upstream.completionWindow, b.completionWindow);
    FirstOfTwo(upstream.completionWindow, m.completionWindow);
    FirstOfTwo(stored.originalInputFileId, upstream.inputFileId);
    MetadataTwice(b.metadata, upstream.metadata);
  }

  lemma MetadataTwice(stored: map<string, string>, upstream: map<string, string>)
    ensures var m := MergeMetadata(stored, upstream); MergeMetadata(m, upstream) == m
  {
  }

  /** strings.ToLower, as far as it can produce the letters of a status: the ASCII letters and
      the dotted capital I. */
  function ToLower(s: string): string {
    if s == "" then ""
    else
      var c := s[0];
      [if 'A' <= c <= 'Z' then c - 'A' + 'a' else if c == '\U{130}' then 'i' else c] + ToLower(s[1..])
  }

  predicate IsTerminal(status: string) {
    ToLower(Trim(status)) in {"completed", "failed", "cancelled", "canceled", "expired"}
  }

  lemma {:induction false} LowerIs(s: string, lower: string)
    requires |s| == |lower|
    requires forall i :: 0 <= i < |s| ==>
      s[i] != '\U{130}' && lower[i] == if 'A' <= s[i] <= 'Z' then s[i] - 'A' + 'a' else s[i]
    ensures ToLower(s) == lower
  {
    if s != "" {
      LowerIs(s[1..], lower[1..]);
      assert lower == [lower[0]] + lower[1..];
    }
  }

  /** A status counts as finished exactly when it is one of five, in any letter case and with
      whitespace around. */
  lemma TerminalStatuses(raw: string, status: string)
    requires var shown := Trim(raw);
      |status| == |shown| && forall i :: 0 <= i < |shown| ==>
        shown[i] != '\U{130}' && status[i] == if 'A' <= shown[i] <= 'Z' then shown[i] - 'A' + 'a' else shown[i]
    ensures IsTerminal(raw) <==> status in {"completed", "failed", "cancelled", "canceled", "expired"}
  {
    var shown := Trim(raw);
    LowerIs(shown, status);
    hide Trim, ToLower;
  }

  // Creation

  /** The upstream id of an answered batch. */
  function UpstreamId(b: BatchResponse): string {
    if b.providerBatchId != "" then b.providerBatchId else b.id
  }

  /** The gateway's version of an upstream batch. */
  function PublicBatch(upstream: BatchResponse, id: string, p: Preparation, req: BatchRequest,
                       operationPath: string -> string): BatchResponse
    requires p.Prepared?
  {
    var window := if upstream.completionWindow != "" then upstream.completionWindow else req.completionWindow;
    upstream.(
      provider := p.providerType,
      providerBatchId := UpstreamId(upstream),
      id := id,
      object_ := "batch",
      inputFileId := FirstNonEmpty([req.inputFileId, p.originalInputFileId, upstream.inputFileId]),
      endpoint := if upstream.endpoint != "" then upstream.endpoint else operationPath(req.endpoint),
      completionWindow := if window != "" then window else "24h",
      metadata := SanitizeMetadata(
        upstream.metadata["provider" := p.providerType]["provider_batch_id" := UpstreamId(upstream)]))
  }

  /** What the client is shown maps to the upstream batch, names the user's own input file, and
      carries no gateway-private metadata. */
  lemma PublicBatchMapping(upstream: BatchResponse, id: string, p: Preparation, req: BatchRequest,
      operationPath: string -> string)
    requires p.Prepared?
    ensures var b := PublicBatch(upstream, id, p, req, operationPath);
      && "provider" in b.metadata && b.metadata["provider"] == p.providerType == b.provider
      && "provider_batch_id" in b.metadata &&
          b.metadata["provider_batch_id"] == UpstreamId(upstream) == b.providerBatchId
      && REQUEST_ID_KEY !in b.metadata && USAGE_LOGGED_AT_KEY !in b.metadata
      && b.createdAt == upstream.createdAt && b.completionWindow != ""
      && (Trim(req.inputFileId) != "" ==> b.inputFileId == Trim(req.inputFileId))
      && (Trim(req.inputFileId) == "" && Trim(p.originalInputFileId) != "" ==>
          b.inputFileId == Trim(p.originalInputFileId))
  {
    hide Trim;
    var ids := [req.inputFileId, p.originalInputFileId, upstream.inputFileId];
    assert ids[1..] == [p.originalInputFileId, upstream.inputFileId];
    assert Trim(ids[0]) == "" ==> FirstNonEmpty(ids) == FirstNonEmpty(ids[1..]);
    assert Trim(ids[1]) != "" ==> FirstNonEmpty(ids[1..]) == Trim(ids[1]);
  }

  /** The upstream batch's own fields are shown as they are, except that a missing endpoint is that
      of the requested operation, a missing completion window the requested one or a day, and a
      blank input file id the upstream's. */
  lemma PublicBatchFields(upstream: BatchResponse, id: string, p: Preparation, req: BatchRequest,
                          operationPath: string -> string)
    requires p.Prepared?
    ensures var b := PublicBatch(upstream, id, p, req, operationPath);
      && b.id == id && b.object_ == "batch" && b.status == upstream.status
      && (upstream.providerBatchId != "" ==> b.providerBatchId == upstream.providerBatchId)
      && (upstream.providerBatchId == "" ==> b.providerBatchId == upstream.id)
      && (upstream.endpoint != "" ==> b.endpoint == upstream.endpoint)
      && (upstream.endpoint == "" ==> b.endpoint == operationPath(req.endpoint))
      && (upstream.completionWindow != "" ==> b.completionWindow == upstream.completionWindow)
      && (upstream.completionWindow == "" && req.completionWindow != "" ==> b.completionWindow == req.completionWindow)
      && (upstream.completionWindow == "" && req.completionWindow == "" ==> b.completionWindow == "24h")
      && (Trim(req.inputFileId) == "" && Trim(p.originalInputFileId) == "" ==>
            b.inputFileId == Trim(upstream.inputFileId))
      && (forall k :: k in upstream.metadata && k !in {"provider", "provider_batch_id", "request_id", "usage_logged_at"}
            ==> k in b.metadata && b.metadata[k] == upstream.metadata[k])
      && (forall k :: k in b.metadata ==> k in upstream.metadata || k in {"provider", "provider_batch_id"})
      && b.counts == upstream.counts && b.usage == upstream.usage && b.results == upstream.results
      && forall f :: TimeOf(b, f) == TimeOf(upstream, f)
  {
    hide Trim;
    var ids := [req.inputFileId, p.originalInputFileId, upstream.inputFileId];
    assert ids[1..] == [p.originalInputFileId, upstream.inputFileId];
    FirstOfTwo(p.originalInputFileId, upstream.inputFileId);
    assert Trim(ids[0]) == "" ==> FirstNonEmpty(ids) == FirstNonEmpty(ids[1..]);
  }

  function StoredFor(b: BatchResponse, p: Preparation, hints: map<string, string>, meta: Meta): StoredBatch
    requires p.Prepared?
  {
    StoredBatch(b, p.hints + hints, p.originalInputFileId, p.rewrittenInputFileId, Trim(meta.requestId), meta.userPath,
                meta.workflowVersionId, Some(meta.usageEnabled), None)
  }

  /** The record of a new batch, field by field: the preparation's file ids in their places, its
      hints overridden by the provider's, and the request's own identification. */
  ghost predicate IsRecordOf(stored: StoredBatch, b: BatchResponse, p: Preparation, hints: map<string, string>,
                             meta: Meta)
    requires p.Prepared?
  {
    && stored.originalInputFileId == p.originalInputFileId
    && stored.rewrittenInputFileId == p.rewrittenInputFileId
    && (forall id :: id in stored.hints <==> id in p.hints || id in hints)
    && (forall id :: id in stored.hints ==> stored.hints[id] == if id in hints then hints[id] else p.hints[id])
    && (Trim(meta.requestId) != "" || REQUEST_ID_KEY !in b.metadata ==> stored.requestId == Trim(meta.requestId))
    && stored.userPath == meta.userPath && stored.workflowVersionId == meta.workflowVersionId
    && stored.usageEnabled == Some(meta.usageEnabled)
    && (USAGE_LOGGED_AT_KEY !in b.metadata ==> stored.usageLoggedAt == None)
    && stored.batch == b.(metadata := stored.batch.metadata)
    && (forall k :: k in stored.batch.metadata <==> k in b.metadata && k != "request_id" && k != "usage_logged_at")
    && (forall k :: k in stored.batch.metadata ==> stored.batch.metadata[k] == b.metadata[k])
  }

  lemma StoredIsRecord(b: BatchResponse, p: Preparation, hints: map<string, string>, meta: Meta,
                       parseTime: string -> Option<int>)
    requires p.Prepared?
    ensures IsRecordOf(NormalizeStored(StoredFor(b, p, hints, meta), parseTime), b, p, hints, meta)
  {
    TrimTwice(meta.requestId);
    hide Trim;
  }

  lemma NewRecord(upstream: BatchResponse, id: string, p: Preparation, req: BatchRequest,
                  operationPath: string -> string, hints: map<string, string>, meta: Meta,
                  parseTime: string -> Option<int>)
    requires p.Prepared?
    ensures var b := PublicBatch(upstream, id, p, req, operationPath);
      var stored := StoredFor(b, p, hints, meta);
      && stored.batch.id == id && stored.hints == p.hints + hints
      && IsRecordOf(NormalizeStored(stored, parseTime), b, p, hints, meta)
      && NormalizeStored(stored, parseTime).batch.providerBatchId == UpstreamId(upstream)
  {
    hide FirstNonEmpty, Trim, IsRecordOf;
    StoredIsRecord(PublicBatch(upstream, id, p, req, operationPath), p, hints, meta, parseTime);
  }

  /** What a rollback asks the provider to undo: the derived input file, then the batch. */
  function RollbackEffects(hinted: bool, files: bool, rewrittenInputFileId: string, batchId: string): seq<Effect> {
    (if files && Trim(rewrittenInputFileId) != "" then [DeleteFile(Trim(rewrittenInputFileId))] else [])
    + (if hinted && Trim(batchId) != "" then [ClearHints(Trim(batchId))] else [])
    + (if Trim(batchId) != "" then [CancelUpstream(Trim(batchId))] else [])
  }

  /** In this order: the derived file goes first, then what is known of the batch, then the batch. */
  lemma RollbackInOrder(rewrittenInputFileId: string, batchId: string)
    requires Trim(rewrittenInputFileId) != "" && Trim(batchId) != ""
    ensures RollbackEffects(true, true, rewrittenInputFileId, batchId)
      == [DeleteFile(Trim(rewrittenInputFileId)), ClearHints(Trim(batchId)), CancelUpstream(Trim(batchId))]
    ensures RollbackEffects(false, true, rewrittenInputFileId, batchId)
      == [DeleteFile(Trim(rewrittenInputFileId)), CancelUpstream(Trim(batchId))]
    ensures RollbackEffects(true, false, rewrittenInputFileId, batchId)
      == [ClearHints(Trim(batchId)), CancelUpstream(Trim(batchId))]
    ensures RollbackEffects(true, true, rewrittenInputFileId, "") == [DeleteFile(Trim(rewrittenInputFileId))]
  {
    assert Trim("") == "";
    hide Trim;
  }

  /** A batch whose persistence failed is cancelled exactly when its upstream id is not blank,
      and under its own id exactly when that id has no outer whitespace. */
  lemma OrphanIsCancelled(hinted: bool, files: bool, rewrittenInputFileId: string, batchId: string)
    ensures (exists id :: CancelUpstream(id) in RollbackEffects(hinted, files, rewrittenInputFileId, batchId))
      <==> Trim(batchId) != ""
    ensures CancelUpstream(batchId) in RollbackEffects(hinted, files, rewrittenInputFileId, batchId)
      <==> batchId != "" && Trimmed(batchId)
  {
    TrimFixed(batchId);
    if Trim(batchId) != "" {
      assert CancelUpstream(Trim(batchId)) in RollbackEffects(hinted, files, rewrittenInputFileId, batchId);
    }
  }

  /** A blank but non-empty upstream id passes the missing-id check and is never cancelled. */
  lemma BlankIdIsOrphaned(hinted: bool, files: bool, rewrittenInputFileId: string)
    ensures " " != "" && forall id :: CancelUpstream(id) !in RollbackEffects(hinted, files, rewrittenInputFileId, " ")
  {
    OrphanIsCancelled(hinted, files, rewrittenInputFileId, " ");
    assert " "[1..] == "" && TrimLeft(" ") == "";
  }

  /** The stored batch with the provider's answer merged in. */
  function Latest(stored: StoredBatch, answer: Answer): StoredBatch {
    if answer.Answered? then Merge(stored, answer.batch) else stored
  }

  lemma LatestKeepsIdentity(stored: StoredBatch, answer: Answer)
    ensures var b, m := stored, Latest(stored, answer);
      && m.batch.id == b.batch.id && m.batch.createdAt == b.batch.createdAt &&
          m.rewrittenInputFileId == b.rewrittenInputFileId
    ensures answer.Answered? ==> Latest(stored, answer) == Merge(stored, answer.batch)
    ensures !answer.Answered? ==> Latest(stored, answer) == stored
  {
    if answer.Answered? {
      MergeKeepsIdentity(stored, answer.batch);
    }
  }

  /** The deletion a finished batch still asks for: that of its derived input file. */
  function CleanupEffects(stored: StoredBatch, files: bool): seq<Effect> {
    if IsTerminal(stored.batch.status) && files && Trim(stored.rewrittenInputFileId) != ""
    then [DeleteFile(Trim(stored.rewrittenInputFileId))]
    else []
  }

  /** What remains on record after it. */
  function AfterCleanup(stored: StoredBatch, files: bool, deleteFails: bool): StoredBatch {
    if CleanupEffects(stored, files) != [] && !deleteFails then stored.(rewrittenInputFileId := "") else stored
  }

  // Refreshes and cancellations of a table of batches

  // What stays the same: the provider routes native batches, it has a file API, and how a
  // logging time is read
  datatype Setting = Setting(native: bool, files: bool, parseTime: string -> Option<int>)

  // One Get or Cancel call with what provider, file API and store answer
  datatype Refresh = Refresh(id: string, cancels: bool, answer: Answer, deleteFails: bool, storeRefuses: bool)

  /** The batch can be looked up with its provider. */
  predicate Routed(native: bool, stored: StoredBatch) {
    native && stored.batch.provider != "" && stored.batch.providerBatchId != ""
  }

  /** A refresh has something to persist: an answer, or a derived file that is gone. */
  predicate Renews(files: bool, stored: StoredBatch, answer: Answer, deleteFails: bool) {
    answer.Answered? || (CleanupEffects(Latest(stored, answer), files) != [] && !deleteFails)
  }

  /** The provider is asked about a stored batch and answers. */
  predicate Reaches(g: Setting, items: Table, r: Refresh) {
    r.id in items && Routed(g.native, items[r.id]) && !r.answer.CallFailed?
  }

  function NextTable(g: Setting, items: Table, r: Refresh): Table {
    if Reaches(g, items, r) && !r.storeRefuses && (r.cancels || Renews(g.files, items[r.id], r.answer, r.deleteFails))
    then items[r.id := NormalizeStored(AfterCleanup(Latest(items[r.id], r.answer), g.files, r.deleteFails),
        g.parseTime)]
    else items
  }

  function NextEffects(g: Setting, items: Table, r: Refresh): seq<Effect> {
    if Reaches(g, items, r) then CleanupEffects(Latest(items[r.id], r.answer), g.files) else []
  }

  function TableAfter(g: Setting, items: Table, run: seq<Refresh>): Table {
    if run == [] then items else NextTable(g, TableAfter(g, items, run[..|run| - 1]), run[|run| - 1])
  }

  /** A batch that names no provider or no upstream batch is never asked about, nor any when the
      provider does not know batches: nothing changes and nothing is deleted. */
  lemma NotRouted(g: Setting, items: Table, r: Refresh)
    requires r.id in items
    requires !g.native || items[r.id].batch.provider == "" || items[r.id].batch.providerBatchId == ""
    ensures NextTable(g, items, r) == items && NextEffects(g, items, r) == []
  {
  }

  /** When the provider answers and the store takes it, the merged batch is stored, without private
      metadata, and with the derived file on record unless it has been deleted. */
  lemma AnswerIsStored(g: Setting, items: Table, r: Refresh)
    requires r.id in items && r.answer.Answered? && !r.storeRefuses
    requires g.native && items[r.id].batch.provider != "" && items[r.id].batch.providerBatchId != ""
    ensures var before, after := items[r.id], NextTable(g, items, r);
      var merged := Merge(before, r.answer.batch).batch;
      var deleted := g.files && IsTerminal(merged.status) && Trim(before.rewrittenInputFileId) != "";
      && after.Keys == items.Keys && (forall id :: id in items && id != r.id ==> after[id] == items[id])
      && after[r.id].batch == merged.(metadata := merged.metadata - {"request_id", "usage_logged_at"})
      && after[r.id].rewrittenInputFileId == (if deleted && !r.deleteFails then "" else before.rewrittenInputFileId)
      && after[r.id].originalInputFileId == before.originalInputFileId && after[r.id].hints == before.hints
      && after[r.id].userPath == before.userPath && after[r.id].workflowVersionId == before.workflowVersionId
      && NextEffects(g, items, r) == if deleted then [DeleteFile(Trim(before.rewrittenInputFileId))] else []
  {
    MergeKeepsIdentity(items[r.id], r.answer.batch);
    hide Trim, Merge, IsTerminal;
  }

  function EffectsOf(g: Setting, items: Table, run: seq<Refresh>): seq<Effect> {
    if run == [] then []
    else EffectsOf(g, items, run[..|run| - 1]) + NextEffects(g, TableAfter(g, items, run[..|run| - 1]), run[|run| - 1])
  }

  lemma NextFile(g: Setting, items: Table, r: Refresh, id: string)
    requires id in items
    ensures var after, effects := NextTable(g, items, r), NextEffects(g, items, r);
      && id in after
      && (after[id].rewrittenInputFileId != items[id].rewrittenInputFileId ==>
            && after[id].rewrittenInputFileId == "" && IsTerminal(after[id].batch.status)
            && r.id == id && !r.deleteFails && effects == [DeleteFile(Trim(items[id].rewrittenInputFileId))])
  {
    hide Merge, Trim, IsTerminal, Latest;
    if r.id in items {
      LatestKeepsIdentity(items[r.id], r.answer);
    }
  }

  /** Over any run of refreshes and cancellations of a table: the record of a batch's derived
      input file stays, or it goes after a deletion of that file has been asked for. */
  lemma {:induction false} FileIsNotForgotten(g: Setting, items: Table, run: seq<Refresh>, id: string)
    requires id in items
    ensures var after := TableAfter(g, items, run);
      && id in after
      && (after[id].rewrittenInputFileId == items[id].rewrittenInputFileId || (
            && after[id].rewrittenInputFileId == ""
            && DeleteFile(Trim(items[id].rewrittenInputFileId)) in EffectsOf(g, items, run)))
  {
    if run != [] {
      hide NextTable, NextEffects, Trim;
      var front := run[..|run| - 1];
      FileIsNotForgotten(g, items, front, id);
      NextFile(g, TableAfter(g, items, front), run[|run| - 1], id);
    }
  }

  /** And nothing but derived input files of the table's batches is ever deleted. */
  lemma {:induction false} OnlyOwnFilesDeleted(g: Setting, items: Table, run: seq<Refresh>, e: Effect)
    requires e in EffectsOf(g, items, run)
    ensures TableAfter(g, items, run).Keys == items.Keys
    ensures exists id :: id in items && e == DeleteFile(Trim(items[id].rewrittenInputFileId))
  {
    hide NextTable, NextEffects, Trim;
    TableKeepsIds(g, items, run);
    var front, r := run[..|run| - 1], run[|run| - 1];
    TableKeepsIds(g, items, front);
    if e in EffectsOf(g, items, front) {
      OnlyOwnFilesDeleted(g, items, front, e);
    } else {
      var before := TableAfter(g, items, front);
      DeletesOwn(g, before, r, e);
      FileIsNotForgotten(g, items, front, r.id);
    }
  }

  /** Of a batch that has been created, no run of refreshes and cancellations ever deletes
      anything but the derived input file of its own preparation, and only once the provider has
      reported it finished. */
  lemma OnlyDerivedFileDeleted(g: Setting, items: Table, run: seq<Refresh>, i: nat, b: BatchResponse, p: Preparation,
                               hints: map<string, string>, meta: Meta)
    requires p.Prepared? && b.id in items && IsRecordOf(items[b.id], b, p, hints, meta)
    requires i < |run| && run[i].id == b.id
    ensures var before := TableAfter(g, items, run[..i]);
      forall e :: e in NextEffects(g, before, run[i]) ==>
        && e == DeleteFile(Trim(p.rewrittenInputFileId))
        && b.id in before && IsTerminal(Latest(before[b.id], run[i].answer).batch.status)
  {
    hide Trim, IsTerminal, Latest, NextTable;
    var before := TableAfter(g, items, run[..i]);
    forall e | e in NextEffects(g, before, run[i])
      ensures e == DeleteFile(Trim(p.rewrittenInputFileId)) && b.id in before
        && IsTerminal(Latest(before[b.id], run[i].answer).batch.status)
    {
      DeletesOwn(g, before, run[i], e);
      FileIsNotForgotten(g, items, run[..i], b.id);
    }
  }

  lemma DeletesOwn(g: Setting, items: Table, r: Refresh, e: Effect)
    requires e in NextEffects(g, items, r)
    ensures r.id in items && Trim(items[r.id].rewrittenInputFileId) != ""
    ensures items[r.id].rewrittenInputFileId != "" && e == DeleteFile(Trim(items[r.id].rewrittenInputFileId))
  {
    hide Merge, IsTerminal, Latest;
    LatestKeepsIdentity(items[r.id], r.answer);
  }

  lemma {:induction false} TableKeepsIds(g: Setting, items: Table, run: seq<Refresh>)
    ensures TableAfter(g, items, run).Keys == items.Keys
  {
    if run != [] {
      hide AfterCleanup, Latest, NormalizeStored, Reaches, Renews;
      TableKeepsIds(g, items, run[..|run| - 1]);
    }
  }

  /** No batch appears, disappears or changes its creation time, and only `id` changes at all. */
  ghost predicate OthersKept(before: Table, after: Table, id: string) {
    && Evolves(before, after) && after.Keys == before.Keys
    && forall other :: other in before && other != id ==> after[other] == before[other]
  }

  lemma NothingChanged(items: Table, id: string)
    ensures OthersKept(items, items, id)
  {
  }

  class Orchestrator {
    const store: MemoryStore?
    const native: bool           // the provider routes native batches
    const hinted: bool           // it also keeps result hints
    const files: bool            // it has a native file API for cleanups
    const operationPath: string -> string
    var effects: seq<Effect>

    ghost predicate Valid()
      reads this, store
    {
      store != null ==> store.Valid()
    }

    ghost function Items(): Table
      reads this, store
    {
      if store == null then map[] else store.items
    }

    constructor (store: MemoryStore?, native: bool, hinted: bool, files: bool, operationPath: string -> string)
      requires store != null ==> store.Valid()
      ensures Valid() && effects == [] && this.store == store && this.native == native && this.hinted == hinted
      ensures this.files == files && this.operationPath == operationPath
    {
      this.store, this.native, this.hinted, this.files := store, native, hinted, files;
      this.operationPath := operationPath;
      effects := [];
    }

    method CleanupPreparedBatchInputFile(fileId: string)
      modifies this
      ensures effects == old(effects) + (if files && Trim(fileId) != "" then [DeleteFile(Trim(fileId))] else [])
    {
      if Trim(fileId) == "" || !files {
        return;
      }
      effects := effects + [DeleteFile(Trim(fileId))];
    }

    method RollbackPreparedBatch(p: Preparation, providerBatchId: string)
      requires p.Prepared?
      modifies this
      ensures effects == old(effects) + RollbackEffects(hinted, files, p.rewrittenInputFileId, providerBatchId)
    {
      CleanupPreparedBatchInputFile(p.rewrittenInputFileId);
      var batchId := Trim(providerBatchId);
      if batchId != "" && hinted {
        effects := effects + [ClearHints(batchId)];
      }
      if batchId != "" {
        effects := effects + [CancelUpstream(batchId)];
      }
    }

    /** The call can be made, the provider answers with a batch that has an id, and a store, if
        there is one, takes the new batch. */
    ghost predicate CanCreate(preparation: Preparation, answer: Answer, storeTakes: bool) {
      native && preparation.Prepared? && answer.Answered? && UpstreamId(answer.batch) != "" &&
          (store == null || storeTakes)
    }

    /** All or nothing: a batch is created exactly when nothing on the way fails, and each
        failure has its own error.  An error leaves the store as it was and asks for everything
        done so far to be undone; success stores exactly one new batch that maps to the upstream
        id, and cancels and deletes nothing. */
    method Create(req: BatchRequest, meta: Meta, preparation: Preparation, answer: Answer, freshId: string,
        storeRefuses: bool)
      returns (r: Created)
      requires Valid() && freshId != ""
      modifies this, store
      ensures Valid() && Evolves(old(Items()), Items())
      ensures r.Created? <==> CanCreate(preparation, answer, !storeRefuses && freshId !in old(Items()))
      ensures r == CreateFailed(NotReady) <==> !native || preparation.NotPrepared?
      ensures r == CreateFailed(UpstreamFailed) <==> native && preparation.Prepared? && answer.CallFailed?
      ensures r == CreateFailed(EmptyResponse) <==> native && preparation.Prepared? && answer.NoBatch?
      ensures r == CreateFailed(MissingBatchId)
        <==> native && preparation.Prepared? && answer.Answered? && UpstreamId(answer.batch) == ""
      ensures r == CreateFailed(PersistFailed)
        <==> CanCreate(preparation, answer, true) && store != null && (storeRefuses || freshId in old(Items()))
      ensures r.CreateFailed? ==> Items() == old(Items())
      ensures r.CreateFailed? ==>
        effects == old(effects) + if r.error == NotReady then [] else
          RollbackEffects(hinted, files, preparation.rewrittenInputFileId,
            if r.error == PersistFailed then UpstreamId(answer.batch) else "")
      ensures r.Created? ==> r.batch == PublicBatch(answer.batch, freshId, preparation, req, operationPath)
      ensures r.Created? && store != null ==>
        && Items() == old(Items())[freshId :=
             NormalizeStored(StoredFor(r.batch, preparation, answer.hints, meta), store.parseTime)]
        && IsRecordOf(Items()[freshId], r.batch, preparation, answer.hints, meta)
        && Items()[freshId].batch.providerBatchId == UpstreamId(answer.batch)
      ensures r.Created? ==>
        effects == old(effects) + (if store != null && hinted && preparation.hints + answer.hints != map[]
                                   then [ClearHints(UpstreamId(answer.batch))] else [])
    {
      hide RollbackEffects, PublicBatch, StoredFor, IsRecordOf, NormalizeStored;
      if !native || preparation.NotPrepared? {
        return CreateFailed(NotReady);
      }
      if answer.CallFailed? {
        RollbackPreparedBatch(preparation, "");
        return CreateFailed(UpstreamFailed);
      }
      if answer.NoBatch? {
        RollbackPreparedBatch(preparation, "");
        return CreateFailed(EmptyResponse);
      }
      var providerBatchId := UpstreamId(answer.batch);
      if providerBatchId == "" {
        RollbackPreparedBatch(preparation, "");
        return CreateFailed(MissingBatchId);
      }
      var resp := PublicBatch(answer.batch, freshId, preparation, req, operationPath);
      if store != null {
        var stored := StoredFor(resp, preparation, answer.hints, meta);
        NewRecord(answer.batch, freshId, preparation, req, operationPath, answer.hints, meta, store.parseTime);
        var failed := storeRefuses;
        if !failed {
          var error := store.Create(stored);
          failed := error.Some?;
        }
        if failed {
          RollbackPreparedBatch(preparation, providerBatchId);
          return CreateFailed(PersistFailed);
        }
        if hinted && stored.hints != map[] {
          effects := effects + [ClearHints(providerBatchId)];
        }
      }
      return Created(resp);
    }

    // Refresh and cancellation

    ghost function OwnSetting(): Setting {
      Setting(native, files, if store == null then s => None else store.parseTime)
    }

    /** Deletes the derived input file of a finished batch and forgets it, unless the provider
        cannot. */
    method CleanupStored(stored: StoredBatch, deleteFails: bool) returns (r: StoredBatch, cleaned: bool)
      modifies this
      ensures cleaned <==> files && Trim(stored.rewrittenInputFileId) != "" && !deleteFails
      ensures r == if cleaned then stored.(rewrittenInputFileId := "") else stored
      ensures effects == old(effects) + (if files && Trim(stored.rewrittenInputFileId) != ""
                                         then [DeleteFile(Trim(stored.rewrittenInputFileId))] else [])
    {
      var fileId := Trim(stored.rewrittenInputFileId);
      if fileId == "" || !files {
        return stored, false;
      }
      effects := effects + [DeleteFile(fileId)];
      if deleteFails {
        return stored, false;
      }
      return stored.(rewrittenInputFileId := ""), true;
    }

    /** The same for a batch that may not have finished yet. */
    method CleanupFinished(stored: StoredBatch, deleteFails: bool) returns (r: StoredBatch, cleaned: bool)
      modifies this
      ensures r == AfterCleanup(stored, files, deleteFails) && r.batch == stored.batch && (!cleaned ==> r == stored)
      ensures cleaned <==> CleanupEffects(stored, files) != [] && !deleteFails
      ensures effects == old(effects) + CleanupEffects(stored, files)
    {
      hide Trim, IsTerminal;
      if IsTerminal(stored.batch.status) {
        r, cleaned := CleanupStored(stored, deleteFails);
      } else {
        r, cleaned := stored, false;
      }
    }

    /** Persists a refreshed batch.  The store still holds its id, so the update goes through. */
    method Save(stored: StoredBatch)
      requires Valid() && store != null && stored.batch.id in store.items
      requires stored.batch.createdAt == store.items[stored.batch.id].batch.createdAt
      modifies store
      ensures Valid() && OthersKept(old(Items()), Items(), stored.batch.id)
      ensures Items() == old(Items())[stored.batch.id := NormalizeStored(stored, store.parseTime)]
    {
      var error := store.Update(stored);
    }

    /** Fails exactly for an unknown batch, a failed call or a failed update; otherwise returns
        and persists the refreshed batch.  The derived input file is deleted exactly when the
        batch has reached a terminal status. */
    method Get(id: string, answer: Answer, deleteFails: bool, storeRefuses: bool) returns (r: Refreshed)
      requires Valid()
      modifies this, store
      ensures Valid() && OthersKept(old(Items()), Items(), id)
      ensures r == RefreshFailed(BatchNotFound) <==> store != null && id !in old(Items())
      ensures r == RefreshFailed(ProviderError) <==>
          id in old(Items()) && Routed(native, old(Items())[id]) && answer.CallFailed?
      ensures r == RefreshFailed(StoreFailed) <==> (
        || store == null
        || (id in old(Items()) && Routed(native, old(Items())[id]) && !answer.CallFailed?
            && storeRefuses && Renews(files, old(Items())[id], answer, deleteFails)))
      ensures r != RefreshFailed(NotAvailable)
      ensures r.Refreshed? ==>
        r.batch == (if Routed(native, old(Items())[id]) then Latest(old(Items())[id], answer)
            else old(Items())[id]).batch
      ensures r.Refreshed? ==> r.batch.id == id && r.batch.createdAt == old(Items())[id].batch.createdAt
      ensures Items() == NextTable(OwnSetting(), old(Items()), Refresh(id, false, answer, deleteFails, storeRefuses))
      ensures effects == old(effects) +
          NextEffects(OwnSetting(), old(Items()), Refresh(id, false, answer, deleteFails, storeRefuses))
    {
      NothingChanged(Items(), id);
      hide Merge, Latest, NormalizeStored, CleanupEffects, AfterCleanup, OthersKept;
      if store == null {
        return RefreshFailed(StoreFailed);
      }
      var found := store.Get(id);
      if found.None? {
        return RefreshFailed(BatchNotFound);
      }
      var stored := found.value;
      if !native || stored.batch.provider == "" || stored.batch.providerBatchId == "" {
        return Refreshed(stored.batch);
      }
      if answer.CallFailed? {
        return RefreshFailed(ProviderError);
      }
      var updated := false;
      LatestKeepsIdentity(stored, answer);
      if answer.Answered? {
        stored := Merge(stored, answer.batch);
        updated := true;
      }
      var cleaned;
      stored, cleaned := CleanupFinished(stored, deleteFails);
      updated := updated || cleaned;
      if updated {
        if storeRefuses {
          return RefreshFailed(StoreFailed);
        }
        Save(stored);
      }
      return Refreshed(stored.batch);
    }

    /** Like a refresh, but the provider must be there to ask, and the result is always persisted. */
    method Cancel(id: string, answer: Answer, deleteFails: bool, storeRefuses: bool) returns (r: Refreshed)
      requires Valid()
      modifies this, store
      ensures Valid() && OthersKept(old(Items()), Items(), id)
      ensures r == RefreshFailed(BatchNotFound) <==> store != null && id !in old(Items())
      ensures r == RefreshFailed(NotAvailable) <==> id in old(Items()) && !Routed(native, old(Items())[id])
      ensures r == RefreshFailed(ProviderError) <==>
          id in old(Items()) && Routed(native, old(Items())[id]) && answer.CallFailed?
      ensures r == RefreshFailed(StoreFailed)
        <==> (store == null
              || (id in old(Items()) && Routed(native, old(Items())[id]) && !answer.CallFailed? && storeRefuses))
      ensures r.Refreshed? ==> r.batch == Latest(old(Items())[id], answer).batch
      ensures r.Refreshed? ==> r.batch.id == id && r.batch.createdAt == old(Items())[id].batch.createdAt
      ensures Items() == NextTable(OwnSetting(), old(Items()), Refresh(id, true, answer, deleteFails, storeRefuses))
      ensures effects == old(effects) +
          NextEffects(OwnSetting(), old(Items()), Refresh(id, true, answer, deleteFails, storeRefuses))
    {
      NothingChanged(Items(), id);
      hide Merge, Latest, NormalizeStored, CleanupEffects, AfterCleanup, OthersKept;
      if store == null {
        return RefreshFailed(StoreFailed);
      }
      var found := store.Get(id);
      if found.None? {
        return RefreshFailed(BatchNotFound);
      }
      var stored := found.value;
      if !native || stored.batch.provider == "" || stored.batch.providerBatchId == "" {
        return RefreshFailed(NotAvailable);
      }
      if answer.CallFailed? {
        return RefreshFailed(ProviderError);
      }
      LatestKeepsIdentity(stored, answer);
      if answer.Answered? {
        stored := Merge(stored, answer.batch);
      }
      var cleaned;
      stored, cleaned := CleanupFinished(stored, deleteFails);
      if storeRefuses {
        return RefreshFailed(StoreFailed);
      }
      Save(stored);
      return Refreshed(stored.batch);
    }
  }
}
