/**
 * The execution routine of the Random node (nodes/Random/Random.node.ts,
 * lines 71-164): for every input item, check the operation, normalise the
 * item's `min`/`max`, ask random.org for one integer in that range, read the
 * answer and emit one output record; the first failing item aborts the run
 * with an error that carries its index.
 *
 * The HTTP call is an oracle: `oracle[i]` is what the transport returns for
 * the request of item `i`, either a response body or a failure with its
 * message. The loop stops at the first failure and every item that gets past
 * validation makes exactly one call, so the i-th call is always the call of
 * item i. Input items are opaque to the node; only their per-item parameters
 * matter, so the items are given as the sequence of those parameters.
 */
module RandomNode {
  import opened Wrappers
  import opened NodeErrors
  import opened Parameters
  import opened ResponseParsing

  /** The only operation the node offers. */
  const SupportedOperation: string := "generate"
  const Endpoint: string := "https://www.random.org/integers/"
  const TimeoutMs: nat := 10000
  /** The `source` field of every output record. */
  const Source: string := "random.org"

  /** The parameters the host resolves for one item. */
  datatype ItemParams = ItemParams(min: ParamValue, max: ParamValue)

  /** What the transport gives back for one request. */
  datatype Transport = Body(text: string) | Failed(message: string)

  /** The query string of the call to random.org. */
  datatype Query = Query(num: int, min: int, max: int, col: int, base: int, format: string, rnd: string)

  /** The options handed to the host's HTTP helper. */
  datatype Request = Request(
    httpMethod: string, url: string, qs: Query, json: bool, timeoutMs: nat, returnFullResponse: bool)

  /** One emitted item. */
  datatype OutputRecord = OutputRecord(randomNumber: int, min: int, max: int, source: string)

  /** The GET request for a normalised range: one base-10 integer between
      the bounds, as plain text, from a fresh randomisation. */
  function BuildRequest(range: Range): Request {
    Request("GET", Endpoint,
      Query(1, range.lo, range.hi, 1, 10, "plain", "new"),
      false, TimeoutMs, false)
  }

  /**
   * Everything one item goes through before the HTTP call: the operation
   * check, then normalisation; on success, the request to send.
   */
  function PrepareItem(operation: string, p: ItemParams): Result<Request, ErrorKind> {
    if operation != SupportedOperation then
      Failure(InvalidOperation)
    else
      match Normalize(p.min, p.max)
      case Failure(e) => Failure(e)
      case Success(range) => Success(BuildRequest(range))
  }

  /**
   * Validation, stated through normalisation: a request is built exactly
   * when the operation is "generate" and the parameters normalise, and it
   * asks for one integer in the normalised range; otherwise the operation
   * error takes precedence over the parameter errors.
   */
  lemma RequestWhenValid(operation: string, p: ItemParams)
    ensures PrepareItem(operation, p).Success? <==>
      operation == SupportedOperation && Normalize(p.min, p.max).Success?
    ensures PrepareItem(operation, p).Success? ==>
      var q := PrepareItem(operation, p).value.qs;
      Normalize(p.min, p.max) == Success(Range(q.min, q.max)) && q.num == 1 &&
      q.min <= q.max && LowestBound <= q.min && q.max <= HighestBound &&
      PrepareItem(operation, p).value ==
        Request("GET", "https://www.random.org/integers/",
          Query(1, q.min, q.max, 1, 10, "plain", "new"), false, 10000, false)
    ensures PrepareItem(operation, p).Failure? ==>
      PrepareItem(operation, p).error ==
        if operation != SupportedOperation then InvalidOperation else Normalize(p.min, p.max).error
  {
  }

  /**
   * One item, from its parameters and the transport's answer to its request
   * (which is never looked at when no request is sent) to an output record
   * or the error that aborts the run.
   */
  function ProcessItem(operation: string, p: ItemParams, answer: Transport): Result<OutputRecord, ErrorKind>
  {
    match PrepareItem(operation, p)
    case Failure(e) => Failure(e)
    case Success(request) =>
      match answer
      case Failed(message) => Failure(TransportFailure(message))
      case Body(text) =>
        match ParseResponse(text)
        case None => Failure(InvalidResponse)
        case Some(value) => Success(OutputRecord(value, request.qs.min, request.qs.max, Source))
  }

  /**
   * What one item's step yields, stated through normalisation and the
   * reading of the body: a record exactly when the operation is "generate",
   * the parameters normalise, the call returns a body and that body reads as
   * an integer. The record then holds the integer read, the ordered in-bounds
   * normalised range and "random.org". Otherwise the item fails with the
   * operation error, the parameter error, the transport's failure with its
   * message or an invalid response, in that order of precedence. An item
   * that fails validation never looks at the transport's answer (`other` is
   * any other answer).
   */
  lemma ItemOutcome(operation: string, p: ItemParams, answer: Transport, other: Transport)
    ensures ProcessItem(operation, p, answer).Success? <==>
      operation == SupportedOperation && Normalize(p.min, p.max).Success? &&
      answer.Body? && ParseResponse(answer.text).Some?
    ensures ProcessItem(operation, p, answer).Success? ==>
      var record := ProcessItem(operation, p, answer).value;
      record.source == Source &&
      record.min <= record.max && LowestBound <= record.min && record.max <= HighestBound &&
      Normalize(p.min, p.max) == Success(Range(record.min, record.max)) &&
      answer.Body? && ParseResponse(answer.text) == Some(record.randomNumber)
    ensures operation != SupportedOperation ==>
      ProcessItem(operation, p, answer) == Failure(InvalidOperation)
    ensures operation == SupportedOperation && Normalize(p.min, p.max).Failure? ==>
      ProcessItem(operation, p, answer) == Failure(Normalize(p.min, p.max).error)
    ensures operation != SupportedOperation || Normalize(p.min, p.max).Failure? ==>
      ProcessItem(operation, p, other) == ProcessItem(operation, p, answer)
    ensures operation == SupportedOperation && Normalize(p.min, p.max).Success? && answer.Failed? ==>
      ProcessItem(operation, p, answer) == Failure(TransportFailure(answer.message))
    ensures (operation == SupportedOperation && Normalize(p.min, p.max).Success? &&
             answer.Body? && ParseResponse(answer.text).None?) ==>
      ProcessItem(operation, p, answer) == Failure(InvalidResponse)
  {
    RequestWhenValid(operation, p);
  }

  /** The request an item sends, if it gets past validation. */
  function SentRequest(operation: string, p: ItemParams): Option<Request> {
    match PrepareItem(operation, p)
    case Success(request) => Some(request)
    case Failure(_) => None
  }

  /** What one item contributes to the run: the request it sent, if any,
      and its outcome. */
  datatype ItemResult = ItemResult(sent: Option<Request>, outcome: Result<OutputRecord, ErrorKind>)

  /** The result every item would have, in item order. (The contract spells
      out the comprehension for the solver, which otherwise has to rediscover
      it at every use.) */
  function ItemResults(operation: string, params: seq<ItemParams>, oracle: seq<Transport>)
    : (rs: seq<ItemResult>)
    requires |oracle| == |params|
    ensures |rs| == |params|
    ensures forall j :: 0 <= j < |params| ==>
      rs[j] == ItemResult(SentRequest(operation, params[j]), ProcessItem(operation, params[j], oracle[j]))
  {
    seq(|params|, j requires 0 <= j < |params| =>
      ItemResult(SentRequest(operation, params[j]), ProcessItem(operation, params[j], oracle[j])))
  }

  /**
   * The outcome after the first `k` items: all their records, in order, or
   * the error of the first of them that failed, tagged with its index.
   */
  function RunPrefix(rs: seq<ItemResult>, k: nat): (r: Result<seq<OutputRecord>, NodeError>)
    requires k <= |rs|
    ensures r.Success? ==> |r.value| == k
    ensures r.Failure? ==> r.error.itemIndex < k
  {
    if k == 0 then Success([])
    else
      match RunPrefix(rs, k - 1)
      case Failure(e) => Failure(e)
      case Success(records) =>
        match rs[k - 1].outcome
        case Failure(kind) => Failure(NodeError(kind, k - 1))
        case Success(record) => Success(records + [record])
  }

  /** The requests sent while processing the first `k` items: nothing more
      is sent once an item has failed. */
  function SentPrefix(rs: seq<ItemResult>, k: nat): (sent: seq<Request>)
    requires k <= |rs|
    ensures |sent| <= k
  {
    if k == 0 then []
    else
      var before := SentPrefix(rs, k - 1);
      if RunPrefix(rs, k - 1).Failure? then before
      else
        match rs[k - 1].sent
        case None => before
        case Some(request) => before + [request]
  }

  /** The outcome of the whole run: what `execute` returns or throws. */
  function Run(operation: string, params: seq<ItemParams>, oracle: seq<Transport>)
    : Result<seq<OutputRecord>, NodeError>
    requires |oracle| == |params|
  {
    RunPrefix(ItemResults(operation, params, oracle), |params|)
  }

  /** The HTTP requests the whole run sends, in order. */
  function Sent(operation: string, params: seq<ItemParams>, oracle: seq<Transport>): seq<Request>
    requires |oracle| == |params|
  {
    SentPrefix(ItemResults(operation, params, oracle), |params|)
  }

  /** One more item, after a prefix of items that all succeeded. */
  lemma RunStep(rs: seq<ItemResult>, i: nat)
    requires i < |rs| && RunPrefix(rs, i).Success?
    ensures RunPrefix(rs, i + 1) ==
      match rs[i].outcome
      case Failure(kind) => Failure(NodeError(kind, i))
      case Success(record) => Success(RunPrefix(rs, i).value + [record])
    ensures SentPrefix(rs, i + 1) ==
      SentPrefix(rs, i) + if rs[i].sent.Some? then [rs[i].sent.value] else []
  {
  }

  /** Once an item has failed, later items change neither the outcome nor
      the requests sent. */
  lemma {:induction false} FailureIsFinal(rs: seq<ItemResult>, k: nat, j: nat)
    requires k <= j <= |rs|
    requires RunPrefix(rs, k).Failure?
    ensures RunPrefix(rs, j) == RunPrefix(rs, k)
    ensures SentPrefix(rs, j) == SentPrefix(rs, k)
    decreases j - k
  {
    if j > k {
      FailureIsFinal(rs, k, j - 1);
    }
  }

  /**
   * A prefix of the run succeeds exactly when every item in it succeeds,
   * and then holds their records in order; otherwise it fails with the
   * error of its first failing item, every item before that one having
   * succeeded.
   */
  lemma {:induction false} RunPrefixCharacterised(rs: seq<ItemResult>, k: nat)
    requires k <= |rs|
    ensures RunPrefix(rs, k).Success? <==> forall j :: 0 <= j < k ==> rs[j].outcome.Success?
    ensures RunPrefix(rs, k).Success? ==>
      forall j :: 0 <= j < k ==> rs[j].outcome == Success(RunPrefix(rs, k).value[j])
    ensures RunPrefix(rs, k).Failure? ==>
      var e := RunPrefix(rs, k).error;
      (forall j :: 0 <= j < e.itemIndex ==> rs[j].outcome.Success?) &&
      rs[e.itemIndex].outcome == Failure(e.kind)
  {
    if k > 0 {
      RunPrefixCharacterised(rs, k - 1);
    }
  }

  /** An item sends its request exactly when it fails at or after the call,
      or succeeds. */
  predicate SendsWhenCalled(r: ItemResult) {
    r.sent.Some? <==>
      (r.outcome.Success? || r.outcome.error.TransportFailure? || r.outcome.error == InvalidResponse)
  }

  /**
   * The requests sent by a prefix of the run: the request of every item up
   * to the first failing one, in order, and the failing item's own request
   * only when it failed at or after the call.
   */
  lemma {:induction false} SentPrefixCharacterised(rs: seq<ItemResult>, k: nat)
    requires k <= |rs|
    requires forall j :: 0 <= j < |rs| ==> SendsWhenCalled(rs[j])
    ensures var sent := SentPrefix(rs, k);
      forall j :: 0 <= j < |sent| ==> rs[j].sent == Some(sent[j])
    ensures RunPrefix(rs, k).Success? ==> |SentPrefix(rs, k)| == k
    ensures RunPrefix(rs, k).Failure? ==>
      var e := RunPrefix(rs, k).error;
      |SentPrefix(rs, k)| ==
        e.itemIndex + if e.kind.TransportFailure? || e.kind == InvalidResponse then 1 else 0
  {
    if k > 0 {
      SentPrefixCharacterised(rs, k - 1);
      assert SendsWhenCalled(rs[k - 1]);
    }
  }

  /** Every item of the node sends its request exactly when it gets to the call. */
  lemma ItemResultsSendWhenCalled(operation: string, params: seq<ItemParams>, oracle: seq<Transport>)
    requires |oracle| == |params|
    ensures var rs := ItemResults(operation, params, oracle);
      forall j :: 0 <= j < |rs| ==> SendsWhenCalled(rs[j])
  {
    var rs := ItemResults(operation, params, oracle);
    forall j | 0 <= j < |rs|
      ensures SendsWhenCalled(rs[j])
    {
      ItemOutcome(operation, params[j], oracle[j], oracle[j]);
      RequestWhenValid(operation, params[j]);
    }
  }

  /**
   * The run's outcome, stated item by item: one record per item, in input
   * order, when every item succeeds; otherwise the error of the first
   * failing item, tagged with that item's index, and no records at all.
   */
  lemma RunCharacterised(operation: string, params: seq<ItemParams>, oracle: seq<Transport>)
    requires |oracle| == |params|
    ensures Run(operation, params, oracle).Success? <==>
      forall j :: 0 <= j < |params| ==> ProcessItem(operation, params[j], oracle[j]).Success?
    ensures Run(operation, params, oracle).Success? ==>
      |Run(operation, params, oracle).value| == |params| &&
      forall j :: 0 <= j < |params| ==>
        ProcessItem(operation, params[j], oracle[j]) == Success(Run(operation, params, oracle).value[j])
    ensures Run(operation, params, oracle).Failure? ==>
      var e := Run(operation, params, oracle).error;
      e.itemIndex < |params| &&
      (forall j :: 0 <= j < e.itemIndex ==> ProcessItem(operation, params[j], oracle[j]).Success?) &&
      ProcessItem(operation, params[e.itemIndex], oracle[e.itemIndex]) == Failure(e.kind)
  {
    RunPrefixCharacterised(ItemResults(operation, params, oracle), |params|);
  }

  /**
   * The requests the whole run sends: the request of every item up to the
   * first failing one, in order; the failing item's own request only when it
   * failed at the call or after it (a transport failure or an invalid
   * response), never when it failed validation.
   */
  lemma SentCharacterised(operation: string, params: seq<ItemParams>, oracle: seq<Transport>)
    requires |oracle| == |params|
    ensures var sent := Sent(operation, params, oracle);
      forall j :: 0 <= j < |sent| ==> PrepareItem(operation, params[j]) == Success(sent[j])
    ensures Run(operation, params, oracle).Success? ==> |Sent(operation, params, oracle)| == |params|
    ensures Run(operation, params, oracle).Failure? ==>
      var e := Run(operation, params, oracle).error;
      |Sent(operation, params, oracle)| ==
        e.itemIndex + if e.kind.TransportFailure? || e.kind == InvalidResponse then 1 else 0
  {
    var rs := ItemResults(operation, params, oracle);
    ItemResultsSendWhenCalled(operation, params, oracle);
    SentPrefixCharacterised(rs, |params|);
    var sent := Sent(operation, params, oracle);
    forall j | 0 <= j < |sent|
      ensures PrepareItem(operation, params[j]) == Success(sent[j])
    {
      assert rs[j].sent == Some(sent[j]);
    }
  }

  /**
   * Every record of a successful run carries "random.org" as its source, an
   * ordered in-bounds range that is the normalisation of its item's
   * parameters, and the integer read from its item's response body.
   */
  lemma RecordsWellFormed(operation: string, params: seq<ItemParams>, oracle: seq<Transport>, j: nat)
    requires |oracle| == |params| && j < |params|
    requires Run(operation, params, oracle).Success?
    ensures var record := Run(operation, params, oracle).value[j];
      record.source == Source &&
      record.min <= record.max && LowestBound <= record.min && record.max <= HighestBound &&
      Normalize(params[j].min, params[j].max) == Success(Range(record.min, record.max)) &&
      oracle[j].Body? && ParseResponse(oracle[j].text) == Some(record.randomNumber)
  {
    RunCharacterised(operation, params, oracle);
    ItemOutcome(operation, params[j], oracle[j], oracle[j]);
  }

  /**
   * An operation other than "generate" fails on the first item, before any
   * request is sent; with no items at all nothing is checked and the run
   * succeeds with no records.
   */
  lemma InvalidOperationFailsFirst(operation: string, params: seq<ItemParams>, oracle: seq<Transport>)
    requires |oracle| == |params| && operation != SupportedOperation
    ensures Run(operation, params, oracle) ==
      if |params| == 0 then Success([]) else Failure(NodeError(InvalidOperation, 0))
    ensures Sent(operation, params, oracle) == []
  {
    var rs := ItemResults(operation, params, oracle);
    if |params| > 0 {
      assert rs[0].outcome == Failure(InvalidOperation) && rs[0].sent == None;
      FailureIsFinal(rs, 1, |params|);
    }
  }

  /**
   * A first item with a non-finite `min` or `max` fails with
   * NonFiniteParameter at index 0, and no request is sent at all.
   */
  lemma NonFiniteFirstItemSendsNothing(params: seq<ItemParams>, oracle: seq<Transport>)
    requires |oracle| == |params| && |params| > 0
    requires !IsFinite(params[0].min) || !IsFinite(params[0].max)
    ensures Run(SupportedOperation, params, oracle) == Failure(NodeError(NonFiniteParameter, 0))
    ensures Sent(SupportedOperation, params, oracle) == []
  {
    var rs := ItemResults(SupportedOperation, params, oracle);
    assert rs[0].outcome == Failure(NonFiniteParameter) && rs[0].sent == None;
    FailureIsFinal(rs, 1, |params|);
  }

  /**
   * For integer parameters within the bounds, the request sent is a GET of
   * the fixed endpoint with num=1, the smaller and the larger parameter as
   * min and max, col=1, base=10, format=plain, rnd=new, as plain text, with
   * a 10-second timeout.
   */
  lemma RequestForIntegers(a: int, b: int)
    requires LowestBound <= a <= HighestBound && LowestBound <= b <= HighestBound
    ensures PrepareItem(SupportedOperation, ItemParams(Finite(a as real), Finite(b as real))) ==
      Success(Request("GET", "https://www.random.org/integers/",
        Query(1, Min(a, b), Max(a, b), 1, 10, "plain", "new"), false, 10000, false))
  {
    NormalizeIntegers(a, b);
  }

  /**
   * The successful path of one item: integer parameters within the bounds,
   * in either order, and a body holding the decimal notation of `n` followed
   * by anything that does not continue the digits give the record
   * {n, min(a, b), max(a, b), "random.org"}.
   */
  lemma ItemSucceeds(p: ItemParams, a: int, b: int, answer: Transport, n: int, rest: string)
    requires LowestBound <= a <= HighestBound && LowestBound <= b <= HighestBound
    requires p == ItemParams(Finite(a as real), Finite(b as real))
    requires rest == [] || !IsDigit(rest[0])
    requires answer == Body(ShowInt(n) + rest)
    ensures ProcessItem(SupportedOperation, p, answer) == Success(OutputRecord(n, Min(a, b), Max(a, b), Source))
    ensures SentRequest(SupportedOperation, p).Some?
  {
    NormalizeIntegers(a, b);
    ParseResponseLenient(answer.text, n, rest);
  }

  /**
   * Two items, the range 1..100 and the same range given the other way
   * round, whose calls answer two integers each followed by a newline, give
   * two records in input order, both with the range 1..100, after two
   * requests.
   */
  lemma TwoItemsInOrder(params: seq<ItemParams>, oracle: seq<Transport>, n0: int, n1: int)
    requires params == [ItemParams(Finite(1.0), Finite(100.0)), ItemParams(Finite(100.0), Finite(1.0))]
    requires oracle == [Body(ShowInt(n0) + "\n"), Body(ShowInt(n1) + "\n")]
    ensures Run(SupportedOperation, params, oracle) ==
      Success([OutputRecord(n0, 1, 100, "random.org"), OutputRecord(n1, 1, 100, "random.org")])
    ensures |Sent(SupportedOperation, params, oracle)| == 2
  {
    ItemSucceeds(params[0], 1, 100, oracle[0], n0, "\n");
    ItemSucceeds(params[1], 100, 1, oracle[1], n1, "\n");
    RunCharacterised(SupportedOperation, params, oracle);
    SentCharacterised(SupportedOperation, params, oracle);
    var records := Run(SupportedOperation, params, oracle).value;
    PairOfRecords(records, OutputRecord(n0, 1, 100, Source), OutputRecord(n1, 1, 100, Source));
  }

  /** A sequence of two records is the pair of its elements. */
  lemma PairOfRecords(records: seq<OutputRecord>, first: OutputRecord, second: OutputRecord)
    requires |records| == 2 && records[0] == first && records[1] == second
    ensures records == [first, second]
  {
  }

  /**
   * The body of the `try` block for one item: check the operation, floor
   * and order the parameters, build the request, refuse an out-of-range
   * pair, call random.org and read its answer. `request` is the request
   * actually sent, if any.
   */
  method TryItem(operation: string, p: ItemParams, answer: Transport)
    returns (outcome: Result<OutputRecord, ErrorKind>, request: Option<Request>)
    ensures outcome == ProcessItem(operation, p, answer)
    ensures request == SentRequest(operation, p)
  {
    if operation != SupportedOperation {
      return Failure(InvalidOperation), None;
    }
    if !IsFinite(p.min) || !IsFinite(p.max) {
      return Failure(NonFiniteParameter), None;
    }
    var min := p.min.value.Floor;
    var max := p.max.value.Floor;
    if min > max {
      min, max := max, min;
    }
    // the options are assembled before the range check, but only sent after it
    var options := BuildRequest(Range(min, max));
    if min < LowestBound || max > HighestBound {
      return Failure(OutOfRange), None;
    }
    assert Normalize(p.min, p.max) == Success(Range(min, max));
    request := Some(options);
    match answer {
      case Failed(message) =>
        outcome := Failure(TransportFailure(message));
      case Body(text) =>
        var value := ParseResponse(text);
        if value.None? {
          outcome := Failure(InvalidResponse);
        } else {
          outcome := Success(OutputRecord(value.value, min, max, Source));
        }
    }
  }

  /**
   * The execution routine. It walks the items in order, appending one record
   * per item to `returnData`, and stops at the first item that fails, with
   * that item's index attached to the error (the `catch` block re-raises a
   * transport failure as an operation error of that item). `sent` lists the
   * HTTP requests it issued.
   */
  method Execute(operation: string, params: seq<ItemParams>, oracle: seq<Transport>)
    returns (result: Result<seq<OutputRecord>, NodeError>, sent: seq<Request>)
    requires |oracle| == |params|
    ensures result == Run(operation, params, oracle)
    ensures sent == Sent(operation, params, oracle)
  {
    ghost var rs := ItemResults(operation, params, oracle);
    var returnData: seq<OutputRecord> := [];
    sent := [];
    var i := 0;
    while i < |params|
      invariant i <= |params|
      invariant RunPrefix(rs, i) == Success(returnData)
      invariant sent == SentPrefix(rs, i)
    {
      var outcome, request := TryItem(operation, params[i], oracle[i]);
      assert rs[i] == ItemResult(request, outcome);
      RunStep(rs, i);
      if request.Some? {
        sent := sent + [request.value];
      }
      if outcome.Failure? {
        result := Failure(NodeError(outcome.error, i));
        assert RunPrefix(rs, i + 1) == result;
        assert SentPrefix(rs, i + 1) == sent;
        FailureIsFinal(rs, i + 1, |params|);
        return;
      }
      returnData := returnData + [outcome.value];
      i := i + 1;
    }
    result := Success(returnData);
  }
}
