/** Executing a batch (app/adapters/google_workspace/sheets.py, `GoogleSheetsAdapter.apply_operations`). */
module SheetCalls {
  import opened Wrappers
  import opened SheetRanges
  import opened SheetPolicy
  import opened SheetBatch

  /** A structural request names its sheet by id. */
  datatype Request = Request(op: Operation, sheet: Option<nat>)

  /** A values call names its sheet by title. */
  datatype Call = Batch(requests: seq<Request>) | Values(op: Operation, title: string) {
    /** The operations the provider carries out, in order. */
    ghost function Effects(): seq<Operation> {
      if Values? then [op] else seq(|requests|, i requires 0 <= i < |requests| => requests[i].op)
    }

    ghost predicate Addressed(c: Context)
      requires c.Valid()
    {
      match this
      case Batch(requests) =>
        && requests != []
        && forall i | 0 <= i < |requests| :: IsStructural(requests[i].op) && IsForItsSheet(c, requests[i])
      case Values(op, title) =>
        && (op.SetValues? || op.AppendRows? || op.ClearRange?)
        && op.ref in c.refs && title == c.SheetOf(op.ref).title
    }
  }

  /** A structural request carries the id of the sheet its reference names; only a new sheet has none. */
  ghost predicate IsForItsSheet(c: Context, request: Request) {
    match request.op
    case FormatRange(ref, _) => ref in c.refs ==> request.sheet == Some(c.refs[ref])
    case CreateSheet(_) => request.sheet == None
    case RenameSheet(ref, _) => ref in c.refs ==> request.sheet == Some(c.refs[ref])
    case DeleteSheet(ref) => ref in c.refs ==> request.sheet == Some(c.refs[ref])
    case Insert(ref, _, _, _) => ref in c.refs ==> request.sheet == Some(c.refs[ref])
    case Delete(ref, _, _, _) => ref in c.refs ==> request.sheet == Some(c.refs[ref])
    case _ => false
  }

  predicate IsStructural(op: Operation) {
    !(op.SetValues? || op.AppendRows? || op.ClearRange?)
  }

  function RequestFor(c: Context, op: Operation): Request {
    Request(op, if op.CreateSheet? || op.ref !in c.refs then None else Some(c.refs[op.ref]))
  }

  /** What calls do, in call order. */
  ghost function Expand(calls: seq<Call>): seq<Operation> {
    if calls == [] then [] else Expand(calls[..|calls| - 1]) + calls[|calls| - 1].Effects()
  }

  /** Every call is addressed rightly, no batch is empty, and no batch directly follows another. */
  ghost predicate Grouped(c: Context, calls: seq<Call>)
    requires c.Valid()
  {
    calls == [] ||
    (var n := |calls| - 1;
     && Grouped(c, calls[..n]) && calls[n].Addressed(c)
     && (n > 0 && calls[n].Batch? ==> calls[n - 1].Values?))
  }

  lemma OneMoreCall(calls: seq<Call>, call: Call)
    ensures Expand(calls + [call]) == Expand(calls) + call.Effects()
  {
    assert (calls + [call])[..|calls|] == calls;
  }

  lemma OneMoreGrouped(c: Context, calls: seq<Call>, call: Call)
    requires c.Valid() && Grouped(c, calls) && call.Addressed(c)
    requires call.Batch? ==> calls == [] || calls[|calls| - 1].Values?
    ensures Grouped(c, calls + [call])
  {
    assert (calls + [call])[..|calls|] == calls;
  }

  /** The provider: it carries out calls in order, until one fails. */
  class SpreadsheetsService {
    const works: nat -> bool
    var calls: seq<Call>

    constructor (works: nat -> bool)
      ensures calls == [] && this.works == works
    {
      this.works := works;
      calls := [];
    }

    /** The call it is asked for next does not work. */
    predicate Fails()
      reads this
    {
      !works(|calls|)
    }

    method Execute(call: Call) returns (ok: bool)
      modifies this
      ensures ok == works(|old(calls)|)
      ensures calls == if ok then old(calls) + [call] else old(calls)
    {
      ok := works(|calls|);
      if ok {
        calls := calls + [call];
      }
    }
  }

  ghost function Ops(requests: seq<Request>): seq<Operation> {
    Batch(requests).Effects()
  }

  /** Where the loop stands: the calls made and the requests pending are the operations so far. */
  ghost predicate Kept(c: Context, done: seq<Operation>, calls: seq<Call>, pending: seq<Request>)
    requires c.Valid()
  {
    && Expand(calls) + Ops(pending) == done
    && Grouped(c, calls) && (calls == [] || calls[|calls| - 1].Values?)
    && (pending != [] ==> Batch(pending).Addressed(c))
  }

  /** Nothing pending any more, and nothing lost. */
  ghost predicate Flushed(c: Context, done: seq<Operation>, calls: seq<Call>)
    requires c.Valid()
  {
    Expand(calls) == done && Grouped(c, calls)
  }

  /** A failure leaves the spreadsheet after some of the operations, never with one skipped. */
  ghost predicate Stopped(c: Context, ops: seq<Operation>, calls: seq<Call>)
    requires c.Valid()
  {
    Expand(calls) <= ops && Grouped(c, calls)
  }

  /** `flush_structural_requests`. */
  method Flush(service: SpreadsheetsService, pending: seq<Request>, c: Context, ghost done: seq<Operation>)
    returns (ok: bool)
    requires c.Valid() && Kept(c, done, service.calls, pending)
    modifies service
    ensures ok ==> Flushed(c, done, service.calls)
    ensures !ok ==> service.calls == old(service.calls) && service.Fails()
    ensures pending == [] ==> ok && service.calls == old(service.calls)
  {
    ok := true;
    if pending != [] {
      ghost var calls := service.calls;
      OneMoreCall(calls, Batch(pending));
      OneMoreGrouped(c, calls, Batch(pending));
      ok := service.Execute(Batch(pending));
    }
  }

  lemma NoPending(c: Context, done: seq<Operation>, calls: seq<Call>)
    requires c.Valid() && Kept(c, done, calls, [])
    ensures Flushed(c, done, calls)
  {
    assert Expand(calls) + [] == Expand(calls);
  }

  lemma ValuesKept(c: Context, done: seq<Operation>, calls: seq<Call>, call: Call)
    requires c.Valid() && Flushed(c, done, calls) && call.Values? && call.Addressed(c)
    ensures Kept(c, done + [call.op], calls + [call], [])
  {
    OneMoreCall(calls, call);
    OneMoreGrouped(c, calls, call);
  }

  lemma RequestKept(c: Context, done: seq<Operation>, calls: seq<Call>, pending: seq<Request>, op: Operation)
    requires c.Valid() && Kept(c, done, calls, pending) && IsStructural(op)
    ensures Kept(c, done + [op], calls, pending + [RequestFor(c, op)])
  {
    assert Ops(pending + [RequestFor(c, op)]) == Ops(pending) + [op];
  }

  lemma StoppedBefore(c: Context, done: seq<Operation>, calls: seq<Call>, pending: seq<Request>)
    requires c.Valid() && Kept(c, done, calls, pending)
    ensures Stopped(c, done, calls)
  {}

  /** The body of the loop: values go out at once, after what is pending; the rest is collected. */
  method Apply(service: SpreadsheetsService, c: Context, op: Operation, collected: seq<Request>,
               ghost ops: seq<Operation>, ghost n: nat)
    returns (ok: bool, pending: seq<Request>)
    requires n < |ops| && op == ops[n] && (!op.CreateSheet? ==> op.ref in c.refs)
    requires c.Valid() && Kept(c, ops[..n], service.calls, collected)
    modifies service
    ensures ok ==> Kept(c, ops[..n + 1], service.calls, pending)
    ensures !ok ==> Stopped(c, ops, service.calls) && service.Fails()
  {
    ghost var done := ops[..n];
    assert done + [op] == ops[..n + 1];
    ok, pending := true, collected;
    if IsStructural(op) {
      RequestKept(c, done, service.calls, pending, op);
      pending := pending + [RequestFor(c, op)];
    } else {
      ok := FlushAndSend(service, c, op, pending, done);
      pending := [];
      if !ok {
        StoppedEarlier(c, ops, n, service.calls);
      }
    }
  }

  method FlushAndSend(service: SpreadsheetsService, c: Context, op: Operation, pending: seq<Request>,
                      ghost done: seq<Operation>)
    returns (ok: bool)
    requires c.Valid() && Kept(c, done, service.calls, pending) && !IsStructural(op) && op.ref in c.refs
    modifies service
    ensures ok ==> Kept(c, done + [op], service.calls, [])
    ensures !ok ==> Stopped(c, done, service.calls) && service.Fails()
  {
    StoppedBefore(c, done, service.calls, pending);
    if pending == [] {
      NoPending(c, done, service.calls);
    }
    ok := Flush(service, pending, c, done);
    if ok {
      var call := Values(op, c.SheetOf(op.ref).title);
      ValuesKept(c, done, service.calls, call);
      ok := service.Execute(call);
    }
  }

  lemma StoppedEarlier(c: Context, ops: seq<Operation>, n: nat, calls: seq<Call>)
    requires c.Valid() && n <= |ops| && Stopped(c, ops[..n], calls)
    ensures Stopped(c, ops, calls)
  {}

  /**
    The whole batch: the provider carries out exactly the operations, in order,
    none lost or repeated, with structural ones grouped between values calls.
  */
  method ApplyOperations(c: Context, ops: seq<Operation>, works: nat -> bool)
    returns (ok: bool, service: SpreadsheetsService)
    requires c.Valid() && Refers(c, ops)
    ensures fresh(service) && service.works == works
    ensures ok ==> Expand(service.calls) == ops && Grouped(c, service.calls)
    ensures !ok ==> Stopped(c, ops, service.calls) && service.Fails()
  {
    service := new SpreadsheetsService(works);
    var pending: seq<Request> := [];
    for i := 0 to |ops|
      invariant fresh(service)
      invariant Kept(c, ops[..i], service.calls, pending)
    {
      ok, pending := Apply(service, c, ops[i], pending, ops, i);
      if !ok {
        return;
      }
    }
    ok := Finish(service, c, ops, pending);
  }

  method Finish(service: SpreadsheetsService, c: Context, ops: seq<Operation>, pending: seq<Request>) returns (ok: bool)
    requires c.Valid() && Kept(c, ops[..|ops|], service.calls, pending)
    modifies service
    ensures ok ==> Flushed(c, ops, service.calls)
    ensures !ok ==> Stopped(c, ops, service.calls) && service.Fails()
  {
    assert ops[..|ops|] == ops;
    StoppedBefore(c, ops, service.calls, pending);
    if pending == [] {
      NoPending(c, ops, service.calls);
    }
    ok := Flush(service, pending, c, ops);
  }

  /**
    When a call is made, everything before it has been done: after `n` calls the
    sheets are those after the operations they stand for.
  */
  lemma {:induction false} CallsSoFarAreAPrefix(calls: seq<Call>, n: nat)
    requires n <= |calls|
    ensures Expand(calls[..n]) <= Expand(calls)
    decreases |calls|
  {
    if n < |calls| {
      CallsSoFarAreAPrefix(calls[..|calls| - 1], n);
      assert calls[..|calls| - 1][..n] == calls[..n];
    } else {
      assert calls[..n] == calls;
    }
  }

  /**
    So the whole batch, and every state the provider goes through, keeps an
    original sheet, and keeps titles distinct if no sheet is renamed twice.
  */
  lemma EveryCallIsSafe(c: Context, ops: seq<Operation>, calls: seq<Call>, n: nat)
    requires c.Valid() && Admits(c, ops) && Expand(calls) <= ops && n <= |calls| && c.sheets != map[]
    ensures Refers(c, ops) && Refers(c, Expand(calls[..n]))
    ensures exists id :: id in c.sheets && Original(id) in After(c, Expand(calls[..n]))
    ensures Distinct(c.fold, Before(c)) && RenamedOnceAtMost(c, ops) ==> Distinct(c.fold, After(c, Expand(calls[..n])))
  {
    var done := Expand(calls[..n]);
    CallsSoFarAreAPrefix(calls, n);
    assert done == ops[..|done|];
    PlannedRefers(c, ops);
    PrefixIsPlanned(c, ops, |done|);
    var id := KeepsAnOriginal(c, done);
    if Distinct(c.fold, Before(c)) && RenamedOnceAtMost(c, ops) {
      TitlesStayDistinct(c, ops, |done|);
    }
  }

  lemma {:induction false} GroupedAt(c: Context, calls: seq<Call>, n: nat)
    requires c.Valid() && Grouped(c, calls) && n < |calls|
    ensures calls[n].Addressed(c)
  {
    if n < |calls| - 1 {
      GroupedAt(c, calls[..|calls| - 1], n);
    }
  }

  /** Values call number `n` carries out the operation that comes after those of the calls before it. */
  lemma ValuesCallIsNext(c: Context, ops: seq<Operation>, calls: seq<Call>, n: nat)
    requires c.Valid() && Grouped(c, calls) && Expand(calls) <= ops && n < |calls| && calls[n].Values?
    ensures var done := Expand(calls[..n]);
            && |done| < |ops| && done == ops[..|done|] && ops[|done|] == calls[n].op
            && !IsStructural(calls[n].op) && calls[n].op.ref in c.refs
            && calls[n].title == c.SheetOf(calls[n].op.ref).title
  {
    hide IsForItsSheet, Grouped, Expand;
    GroupedAt(c, calls, n);
    CallsSoFarAreAPrefix(calls, n + 1);
    assert calls[..n + 1] == calls[..n] + [calls[n]];
    OneMoreCall(calls[..n], calls[n]);
    assert Expand(calls[..n + 1])[|Expand(calls[..n])|] == calls[n].op;
  }

  /**
    Where each values call lands, in the sheets as the calls before it left
    them: on the sheet its operation names exactly if no operation before it
    deleted that sheet or left it under another title, and then nowhere else.
  */
  lemma EveryValuesCallReaches(c: Context, ops: seq<Operation>, calls: seq<Call>, n: nat)
    requires c.Valid() && Admits(c, ops) && Refers(c, ops)
    requires Distinct(c.fold, Before(c)) && RenamedOnceAtMost(c, ops)
    requires Grouped(c, calls) && Expand(calls) <= ops && n < |calls| && calls[n].Values?
    ensures !IsStructural(calls[n].op) && calls[n].op.ref in c.refs
    ensures calls[n].title == c.SheetOf(calls[n].op.ref).title
    ensures var done := Expand(calls[..n]);
            Refers(c, done) && IsPlanned(c, done) && ReachesExactly(c, done, calls[n].op.ref)
  {
    hide ReachesExactly, Distinct, Grouped, RenamedOnceAtMost;
    ValuesCallIsNext(c, ops, calls, n);
    ValuesReachExactly(c, ops, |Expand(calls[..n])|, calls[n].op.ref);
  }
}
