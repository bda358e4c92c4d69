// Bulk execution: a loop over operations that may themselves be bulk requests.
module Bulk {
  import opened Text
  import opened Values
  import opened BulkRequests

  // What an operation or a whole request is answered with. A nested bulk request answers with its own results.
  datatype Reply = Reply(status: int, location: string, version: string, content: Content)

  datatype Content = Body(json: Option<Json>) | Refused(reason: Reason) | Nested(results: seq<OpResult>)

  datatype Reason = InvalidBody | InvalidRequest | TooManyOperations | MissingPath | InvalidUrl | MethodNotAllowed

  datatype OpResult = OpResult(verb: string, bulkId: string, reply: Reply)

  // The rest of the server: which paths make a URL, and the handlers of all other requests. A handler that
  // panics, as those that read a missing body do, answers None.
  datatype Server<!S> = Server(maxBulkOps: int, parses: string -> bool,
                               handle: (S, string, string, Option<Json>) -> (S, Option<Reply>))

  function Refusal(status: int, reason: Reason): Reply { Reply(status, "", "", Refused(reason)) }

  // The first segment of a path, after one leading slash.
  function FirstSegment(path: string): string {
    var trimmed := if path != "" && path[0] == '/' then path[1..] else path;
    var slash := IndexOf(trimmed, '/');
    if slash == -1 then trimmed else trimmed[..slash]
  }

  predicate IsBulkPath(path: string) { Lower(FirstSegment(path)) == "bulk" }

  // A JSON null decodes to an object without entries.
  function Decoded(body: Json): Option<Object> {
    if body.Obj? then Some(body.fields) else if body.Null? then Some(map[]) else None
  }

  // The request a body holds, or why it is refused.
  ghost function Accepted(maxBulkOps: int, body: Json): Result<BulkRequest, Reply> {
    if Decoded(body).None? then Err(Refusal(400, InvalidBody))
    else if ParsedRequest(Decoded(body).value).None? then Err(Refusal(400, InvalidRequest))
    else
      var req := ParsedRequest(Decoded(body).value).value;
      if maxBulkOps > 0 && |req.ops| > maxBulkOps then Err(Refusal(413, TooManyOperations)) else Ok(req)
  }

  predicate Failed(r: OpResult) { r.reply.status >= 300 }

  // ----- the meaning of a bulk request; None is a panic, which ends the whole request -----

  ghost function RunBulk<S>(sv: Server<S>, s: S, body: Json): (S, Option<Reply>)
    decreases body, 2, 0
  {
    match Accepted(sv.maxBulkOps, body)
    case Err(refusal) => (s, Some(refusal))
    case Ok(req) =>
      AcceptedBelow(sv.maxBulkOps, body);
      var (after, results) := RunOps(sv, s, body, req.ops, req.failOnErrors, 0);
      (after, if results.None? then None else Some(Reply(200, "", "", Nested(results.value))))
  }

  ghost function Prepend<S>(r: OpResult, later: (S, Option<seq<OpResult>>)): (S, Option<seq<OpResult>>) {
    (later.0, if later.1.None? then None else Some([r] + later.1.value))
  }

  // What one operation and those after it come to.
  ghost function Combined<S>(next: S, result: Option<OpResult>, limit: int, count: nat,
                             later: (S, Option<seq<OpResult>>))
    : (S, Option<seq<OpResult>>)
  {
    if result.None? then (next, None)
    else if limit > 0 && count >= limit then (next, Some([result.value]))
    else Prepend(result.value, later)
  }

  // Results from here on, with so many failures before.
  ghost function RunOps<S>(sv: Server<S>, s: S, body: Json, ops: seq<BulkOp>, limit: int, failures: nat)
    : (S, Option<seq<OpResult>>)
    requires DataBelow(body, ops)
    decreases body, 1, |ops|
  {
    if ops == [] then (s, Some([]))
    else
      var (next, result) := RunOp(sv, s, body, ops[0]);
      if result.None? then (next, None)
      else
        var count := failures + (if Failed(result.value) then 1 else 0);
        if limit > 0 && count >= limit then (next, Some([result.value]))
        else
          Prepend(result.value, RunOps(sv, next, body, ops[1..], limit, count))
  }

  ghost function RunOp<S>(sv: Server<S>, s: S, body: Json, op: BulkOp): (S, Option<OpResult>)
    requires op.data.Some? ==> op.data.value < body
    decreases body, 0, 0
  {
    var (after, reply) :=
      if op.path == "" then (s, Some(Refusal(400, MissingPath)))
      else if !sv.parses(op.path) then (s, Some(Refusal(400, InvalidUrl)))
      else if !IsBulkPath(op.path) then sv.handle(s, op.verb, op.path, op.data)
      else if op.verb != "POST" then (s, Some(Refusal(405, MethodNotAllowed)))
      else if op.data.None? then (s, None)
      else RunBulk(sv, s, op.data.value);
    (after, if reply.None? then None else Some(OpResult(op.verb, op.bulkId, reply.value)))
  }

  // An operation that panics reached a handler that does, or the bulk endpoint by POST without data or with
  // a request that panics.
  ghost predicate OpPanics<S>(sv: Server<S>, s: S, body: Json, op: BulkOp)
    requires op.data.Some? ==> op.data.value < body
  {
    op.path != "" && sv.parses(op.path)
    && if !IsBulkPath(op.path) then sv.handle(s, op.verb, op.path, op.data).1.None?
       else op.verb == "POST" && (op.data.None? || RunBulk(sv, s, op.data.value).1.None?)
  }

  lemma PanicsExactly<S>(sv: Server<S>, s: S, body: Json, op: BulkOp)
    requires op.data.Some? ==> op.data.value < body
    ensures RunOp(sv, s, body, op).1.None? <==> OpPanics(sv, s, body, op)
  {
  }

  lemma AcceptedBelow(maxBulkOps: int, body: Json)
    ensures Accepted(maxBulkOps, body).Ok? ==> DataBelow(body, Accepted(maxBulkOps, body).value.ops)
  {
    if Accepted(maxBulkOps, body).Ok? { ParsedBelow(Decoded(body).value); }
  }

  lemma ParsedBelow(m: Object)
    requires ParsedRequest(m).Some?
    ensures m != map[] && DataBelow(Obj(m), ParsedRequest(m).value.ops)
  {
  }

  // ----- running the operations one after the other, whatever fails -----

  ghost function StateBefore<S>(sv: Server<S>, s: S, body: Json, ops: seq<BulkOp>, k: nat): S
    requires DataBelow(body, ops) && k <= |ops|
    decreases k
  {
    if k == 0 then s else RunOp(sv, StateBefore(sv, s, body, ops, k - 1), body, ops[k - 1]).0
  }

  ghost function ResultOf<S>(sv: Server<S>, s: S, body: Json, ops: seq<BulkOp>, k: nat): Option<OpResult>
    requires DataBelow(body, ops) && k < |ops|
  {
    RunOp(sv, StateBefore(sv, s, body, ops, k), body, ops[k]).1
  }

  function Failures(results: seq<OpResult>): nat {
    if results == [] then 0
    else Failures(results[..|results| - 1]) + (if Failed(results[|results| - 1]) then 1 else 0)
  }

  lemma FailuresStep(results: seq<OpResult>, r: OpResult)
    ensures Failures(results + [r]) == Failures(results) + (if Failed(r) then 1 else 0)
  {
    assert (results + [r])[..|results|] == results;
  }

  // The limit was not reached before the last of these results, so at no earlier point.
  predicate WithinLimit(limit: int, results: seq<OpResult>) {
    limit > 0 && results != [] ==> Failures(results[..|results| - 1]) < limit
  }

  lemma {:induction false} FailuresGrow(results: seq<OpResult>, k: nat)
    requires k <= |results|
    ensures Failures(results[..k]) <= Failures(results)
  {
    if k < |results| {
      FailuresGrow(results[..|results| - 1], k);
      assert results[..|results| - 1][..k] == results[..k];
    } else {
      assert results[..k] == results;
    }
  }

  ghost predicate InOrder<S>(sv: Server<S>, s: S, body: Json, ops: seq<BulkOp>, results: seq<OpResult>)
    requires DataBelow(body, ops)
  {
    |results| <= |ops| && forall k :: 0 <= k < |results| ==> ResultOf(sv, s, body, ops, k) == Some(results[k])
  }

  // The results are those of the first operations in order, and stop right at the failure that reaches the
  // limit, or at the end when none does.
  ghost predicate StopsRight<S>(sv: Server<S>, s: S, body: Json, ops: seq<BulkOp>, limit: int, results: seq<OpResult>,
                                after: S)
    requires DataBelow(body, ops)
  {
    && InOrder(sv, s, body, ops, results) && WithinLimit(limit, results)
    && after == StateBefore(sv, s, body, ops, |results|)
    && (|results| < |ops| ==>
          limit > 0 && Failures(results) == limit && results != [] && Failed(results[|results| - 1]))
  }

  // A panic comes from the first operation that panics, before the limit is reached.
  ghost predicate PanicsRight<S>(sv: Server<S>, s: S, body: Json, ops: seq<BulkOp>, limit: int, done: seq<OpResult>,
                                 after: S)
    requires DataBelow(body, ops)
  {
    && InOrder(sv, s, body, ops, done) && |done| < |ops| && (limit > 0 ==> Failures(done) < limit)
    && after == StateBefore(sv, s, body, ops, |done| + 1)
    && OpPanics(sv, StateBefore(sv, s, body, ops, |done|), body, ops[|done|])
  }

  lemma InOrderStep<S>(sv: Server<S>, s: S, body: Json, ops: seq<BulkOp>, done: seq<OpResult>, r: OpResult)
    requires DataBelow(body, ops) && InOrder(sv, s, body, ops, done) && |done| < |ops|
    requires ResultOf(sv, s, body, ops, |done|) == Some(r)
    ensures InOrder(sv, s, body, ops, done + [r])
  {
  }

  lemma CountStep(limit: int, done: seq<OpResult>, r: OpResult)
    requires limit > 0 ==> Failures(done) < limit
    ensures Failures(done + [r]) == Failures(done) + (if Failed(r) then 1 else 0)
    ensures WithinLimit(limit, done + [r])
    ensures limit > 0 && Failures(done + [r]) >= limit ==> Failures(done + [r]) == limit && Failed(r)
  {
    assert (done + [r])[..|done|] == done;
  }

  lemma UnfoldOps<S>(sv: Server<S>, s: S, body: Json, op: BulkOp, rest: seq<BulkOp>, limit: int, failures: nat,
                     count: nat)
    requires DataBelow(body, [op] + rest) && (op.data.Some? ==> op.data.value < body) && DataBelow(body, rest)
    requires RunOp(sv, s, body, op).1.Some?
        ==> count == failures + (if Failed(RunOp(sv, s, body, op).1.value) then 1 else 0)
    ensures var (next, result) := RunOp(sv, s, body, op);
            RunOps(sv, s, body, [op] + rest, limit, failures)
            == Combined(next, result, limit, count, RunOps(sv, next, body, rest, limit, count))
  {
    assert ([op] + rest)[1..] == rest;
  }

  // One operation of the loop.
  lemma RunOpsStep<S>(sv: Server<S>, s: S, body: Json, ops: seq<BulkOp>, limit: int, done: seq<OpResult>, count: nat)
    requires DataBelow(body, ops) && |done| < |ops|
    requires var result := ResultOf(sv, s, body, ops, |done|); result.Some? ==> count == Failures(done + [result.value])
    ensures var n := |done|;
            RunOps(sv, StateBefore(sv, s, body, ops, n), body, ops[n..], limit, Failures(done))
            == Combined(StateBefore(sv, s, body, ops, n + 1), ResultOf(sv, s, body, ops, n), limit, count,
                        RunOps(sv, StateBefore(sv, s, body, ops, n + 1), body, ops[n + 1..], limit, count))
  {
    var n := |done|;
    SuffixStep(ops, n);
    NextState(sv, s, body, ops, n);
    var result := ResultOf(sv, s, body, ops, n);
    if result.Some? { FailuresStep(done, result.value); }
    UnfoldOps(sv, StateBefore(sv, s, body, ops, n), body, ops[n], ops[n + 1..], limit, Failures(done), count);
  }

  lemma SuffixStep(ops: seq<BulkOp>, n: nat)
    requires n < |ops|
    ensures ops[n..] == [ops[n]] + ops[n + 1..]
  {
  }

  lemma NextState<S>(sv: Server<S>, s: S, body: Json, ops: seq<BulkOp>, n: nat)
    requires DataBelow(body, ops) && n < |ops|
    ensures RunOp(sv, StateBefore(sv, s, body, ops, n), body, ops[n])
            == (StateBefore(sv, s, body, ops, n + 1), ResultOf(sv, s, body, ops, n))
  {
  }

  // What the operations after those done may come to.
  ghost predicate EndsRight<S>(sv: Server<S>, s: S, body: Json, ops: seq<BulkOp>, limit: int, done: seq<OpResult>,
                               out: (S, Option<seq<OpResult>>))
    requires DataBelow(body, ops)
  {
    if out.1.Some? then StopsRight(sv, s, body, ops, limit, done + out.1.value, out.0)
    else exists more :: PanicsRight(sv, s, body, ops, limit, more, out.0)
  }

  lemma EndsBefore<S>(sv: Server<S>, s: S, body: Json, ops: seq<BulkOp>, limit: int, done: seq<OpResult>, r: OpResult,
                      out: (S, Option<seq<OpResult>>))
    requires DataBelow(body, ops) && EndsRight(sv, s, body, ops, limit, done + [r], out)
    ensures EndsRight(sv, s, body, ops, limit, done, Prepend(r, out))
  {
    if out.1.Some? { assert done + [r] + out.1.value == done + ([r] + out.1.value); }
  }

  lemma EndsHere<S>(sv: Server<S>, s: S, body: Json, ops: seq<BulkOp>, limit: int, done: seq<OpResult>)
    requires DataBelow(body, ops) && InOrder(sv, s, body, ops, done) && WithinLimit(limit, done)
    requires |done| < |ops| ==> limit > 0 && Failures(done) == limit && done != [] && Failed(done[|done| - 1])
    ensures EndsRight(sv, s, body, ops, limit, done, (StateBefore(sv, s, body, ops, |done|), Some([])))
  {
    assert done + [] == done;
  }

  lemma EndsAtLimit<S>(sv: Server<S>, s: S, body: Json, ops: seq<BulkOp>, limit: int, done: seq<OpResult>, r: OpResult)
    requires DataBelow(body, ops) && InOrder(sv, s, body, ops, done + [r]) && WithinLimit(limit, done + [r])
    requires limit > 0 && Failures(done + [r]) == limit && Failed(r)
    ensures EndsRight(sv, s, body, ops, limit, done, (StateBefore(sv, s, body, ops, |done| + 1), Some([r])))
  {
    EndsHere(sv, s, body, ops, limit, done + [r]);
    EndsBefore(sv, s, body, ops, limit, done, r, (StateBefore(sv, s, body, ops, |done| + 1), Some([])));
    assert [r] + [] == [r];
  }

  lemma EndsStep<S>(sv: Server<S>, s: S, body: Json, ops: seq<BulkOp>, limit: int, done: seq<OpResult>, count: nat,
                    later: (S, Option<seq<OpResult>>))
    requires DataBelow(body, ops) && InOrder(sv, s, body, ops, done) && |done| < |ops|
    requires limit > 0 ==> Failures(done) < limit
    requires var result := ResultOf(sv, s, body, ops, |done|);
             result.Some? ==>
               (count == Failures(done + [result.value])
                && (!(limit > 0 && count >= limit)
                  ==> EndsRight(sv, s, body, ops, limit, done + [result.value], later)))
    ensures EndsRight(sv, s, body, ops, limit, done,
                      Combined(StateBefore(sv, s, body, ops, |done| + 1), ResultOf(sv, s, body, ops, |done|), limit,
                        count, later))
  {
    var result := ResultOf(sv, s, body, ops, |done|);
    if result.None? {
      PanicsExactly(sv, StateBefore(sv, s, body, ops, |done|), body, ops[|done|]);
      assert PanicsRight(sv, s, body, ops, limit, done, StateBefore(sv, s, body, ops, |done| + 1));
    } else {
      InOrderStep(sv, s, body, ops, done, result.value);
      CountStep(limit, done, result.value);
      if limit > 0 && count >= limit {
        EndsAtLimit(sv, s, body, ops, limit, done, result.value);
      } else {
        EndsBefore(sv, s, body, ops, limit, done, result.value, later);
      }
    }
  }

  lemma {:induction false} OpsLaw<S>(sv: Server<S>, s: S, body: Json, ops: seq<BulkOp>, limit: int, done: seq<OpResult>)
    requires DataBelow(body, ops) && InOrder(sv, s, body, ops, done)
    requires limit > 0 ==> Failures(done) < limit
    ensures EndsRight(sv, s, body, ops, limit, done,
                      RunOps(sv, StateBefore(sv, s, body, ops, |done|), body, ops[|done|..], limit, Failures(done)))
    decreases |ops| - |done|
  {
    var n := |done|;
    if n == |ops| {
      if limit > 0 && done != [] { FailuresGrow(done, n - 1); }
      EndsHere(sv, s, body, ops, limit, done);
    } else {
      var result := ResultOf(sv, s, body, ops, n);
      var count := if result.Some? then Failures(done + [result.value]) else 0;
      var later := RunOps(sv, StateBefore(sv, s, body, ops, n + 1), body, ops[n + 1..], limit, count);
      RunOpsStep(sv, s, body, ops, limit, done, count);
      if result.Some? && !(limit > 0 && count >= limit) {
        InOrderStep(sv, s, body, ops, done, result.value);
        OpsLaw(sv, s, body, ops, limit, done + [result.value]);
      }
      EndsStep(sv, s, body, ops, limit, done, count, later);
    }
  }

  // An accepted bulk request answers 200 with the results of exactly the operations up to and including the
  // failOnErrors-th failure, or of all operations, or panics at the first operation that does. This holds
  // for the requests nested inside as well, since each of them is a bulk request on its own.
  lemma BulkLaw<S>(sv: Server<S>, s: S, body: Json)
    requires Accepted(sv.maxBulkOps, body).Ok?
    ensures var req := Accepted(sv.maxBulkOps, body).value;
            var (after, reply) := RunBulk(sv, s, body);
            DataBelow(body, req.ops) &&
            if reply.Some? then reply.value.status == 200 && reply.value.content.Nested?
              && StopsRight(sv, s, body, req.ops, req.failOnErrors, reply.value.content.results, after)
            else exists more :: PanicsRight(sv, s, body, req.ops, req.failOnErrors, more, after)
  {
    AcceptedBelow(sv.maxBulkOps, body);
    var req := Accepted(sv.maxBulkOps, body).value;
    assert req.ops[0..] == req.ops;
    OpsLaw(sv, s, body, req.ops, req.failOnErrors, []);
    var results := RunOps(sv, s, body, req.ops, req.failOnErrors, 0).1;
    if results.Some? { assert [] + results.value == results.value; }
  }
}
