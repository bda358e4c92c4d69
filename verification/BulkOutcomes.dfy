// Every outcome a bulk request can have when Go walks the maps in its body in any order, and that there is one
// when no keys clash.
module BulkOutcomes {
  import opened Text
  import opened Values
  import opened BulkRequests
  import opened Bulk

  // ----- what the handler can make of a body -----

  function Checked(maxBulkOps: int, req: Option<BulkRequest>): Result<BulkRequest, Reply> {
    if req.None? then Err(Refusal(400, InvalidRequest))
    else if maxBulkOps > 0 && |req.value.ops| > maxBulkOps then Err(Refusal(413, TooManyOperations))
    else Ok(req.value)
  }

  ghost predicate MayAccept(maxBulkOps: int, body: Json, r: Result<BulkRequest, Reply>) {
    if Decoded(body).None? then r == Err(Refusal(400, InvalidBody))
    else exists req :: MayParse(Decoded(body).value, req) && r == Checked(maxBulkOps, req)
  }

  // An operation that is a bulk request with data.
  predicate IsNested<S>(sv: Server<S>, op: BulkOp) {
    op.path != "" && sv.parses(op.path) && IsBulkPath(op.path) && op.verb == "POST" && op.data.Some?
  }

  function Answer(op: BulkOp, reply: Option<Reply>): Option<OpResult> {
    if reply.None? then None else Some(OpResult(op.verb, op.bulkId, reply.value))
  }

  function Results(results: Option<seq<OpResult>>): Option<Reply> {
    if results.None? then None else Some(Reply(200, "", "", Nested(results.value)))
  }

  ghost predicate MayBulk<S(!new)>(sv: Server<S>, s: S, body: Json, after: S, reply: Option<Reply>)
    decreases body, 3
  {
    (exists refusal :: MayAccept(sv.maxBulkOps, body, Err(refusal)) && after == s && reply == Some(refusal))
    || exists req, results ::
         MayAccept(sv.maxBulkOps, body, Ok(req)) && DataBelow(body, req.ops)
         && MayRunOps(sv, s, body, req.ops, req.failOnErrors, after, results) && reply == Results(results)
  }

  // The state before each operation, and the results, of a first part of the operations.
  ghost predicate Traces<S(!new)>(sv: Server<S>, s: S, body: Json, ops: seq<BulkOp>, trace: seq<S>, done: seq<OpResult>)
    requires DataBelow(body, ops)
    decreases body, 1
  {
    |trace| == |done| + 1 && |done| <= |ops| && trace[0] == s
    && forall k :: 0 <= k < |done| ==> MayRunOp(sv, trace[k], body, ops[k], trace[k + 1], Some(done[k]))
  }

  // The limit was not reached before the last result; it is reached by it, or all operations are done.
  predicate Stops(ops: seq<BulkOp>, limit: int, done: seq<OpResult>) {
    |done| <= |ops| && WithinLimit(limit, done)
    && (|done| < |ops| ==> limit > 0 && Failures(done) == limit && done != [] && Failed(done[|done| - 1]))
  }

  // The prefix law: the results of the first operations in order up to the failure that reaches the limit,
  // or a panic of the operation after those.
  ghost predicate MayRunOps<S(!new)>(sv: Server<S>, s: S, body: Json, ops: seq<BulkOp>, limit: int, after: S,
                                     results: Option<seq<OpResult>>)
    requires DataBelow(body, ops)
    decreases body, 2
  {
    exists trace, done ::
      Traces(sv, s, body, ops, trace, done)
      && (results.Some? ==> results.value == done && after == trace[|done|] && Stops(ops, limit, done))
      && (results.None? ==>
            |done| < |ops| && (limit > 0 ==> Failures(done) < limit)
            && MayRunOp(sv, trace[|done|], body, ops[|done|], after, None))
  }

  // What is no bulk request with data has the one outcome of the specification.
  ghost predicate MayRunOp<S(!new)>(sv: Server<S>, s: S, body: Json, op: BulkOp, after: S, r: Option<OpResult>)
    requires op.data.Some? ==> op.data.value < body
    decreases body, 0
  {
    if IsNested(sv, op) then
      exists reply :: MayBulk(sv, s, op.data.value, after, reply) && r == Answer(op, reply)
    else (after, r) == RunOp(sv, s, body, op)
  }

  // ----- one more operation -----

  lemma TraceStart<S(!new)>(sv: Server<S>, s: S, body: Json, ops: seq<BulkOp>)
    requires DataBelow(body, ops)
    ensures Traces(sv, s, body, ops, [s], [])
  {
  }

  lemma TraceNext<S(!new)>(sv: Server<S>, s: S, body: Json, ops: seq<BulkOp>, trace: seq<S>, done: seq<OpResult>,
                           next: S, r: OpResult)
    requires DataBelow(body, ops) && Traces(sv, s, body, ops, trace, done) && |done| < |ops|
    requires MayRunOp(sv, trace[|done|], body, ops[|done|], next, Some(r))
    ensures Traces(sv, s, body, ops, trace + [next], done + [r])
  {
    var t, d := trace + [next], done + [r];
    forall k | 0 <= k < |d| ensures MayRunOp(sv, t[k], body, ops[k], t[k + 1], Some(d[k])) {
      if k < |done| { assert MayRunOp(sv, trace[k], body, ops[k], trace[k + 1], Some(done[k])); }
    }
  }

  // The two ways the loop ends.
  lemma EndsWithResults<S(!new)>(sv: Server<S>, s: S, body: Json, ops: seq<BulkOp>, limit: int, trace: seq<S>,
                                 done: seq<OpResult>)
    requires DataBelow(body, ops) && Traces(sv, s, body, ops, trace, done) && Stops(ops, limit, done)
    ensures MayRunOps(sv, s, body, ops, limit, trace[|done|], Some(done))
  {
  }

  lemma EndsInPanic<S(!new)>(sv: Server<S>, s: S, body: Json, ops: seq<BulkOp>, limit: int, trace: seq<S>,
                             done: seq<OpResult>, after: S)
    requires DataBelow(body, ops) && Traces(sv, s, body, ops, trace, done) && |done| < |ops|
    requires limit > 0 ==> Failures(done) < limit
    requires MayRunOp(sv, trace[|done|], body, ops[|done|], after, None)
    ensures MayRunOps(sv, s, body, ops, limit, after, None)
  {
  }

  lemma StopsAtEnd(ops: seq<BulkOp>, limit: int, done: seq<OpResult>)
    requires |done| == |ops| && (limit > 0 ==> Failures(done) < limit)
    ensures Stops(ops, limit, done)
  {
    if limit > 0 && done != [] { FailuresGrow(done, |done| - 1); }
  }

  // ----- without case clashes there is one outcome -----

  lemma AcceptedIsOnly(maxBulkOps: int, body: Json, r: Result<BulkRequest, Reply>)
    requires Unique(body) && MayAccept(maxBulkOps, body, r)
    ensures r == Accepted(maxBulkOps, body)
    ensures r.Ok? ==> DataBelow(body, r.value.ops) && AllUnique(r.value.ops)
  {
    if Decoded(body).Some? {
      var m := Decoded(body).value;
      var req :| MayParse(m, req) && r == Checked(maxBulkOps, req);
      RequestIsOnly(m, req);
      if r.Ok? {
        AcceptedBelow(maxBulkOps, body);
        ParsedUnique(m);
      }
    }
  }

  // The results so far followed by what is still to come.
  ghost function After<S>(done: seq<OpResult>, later: (S, Option<seq<OpResult>>)): (S, Option<seq<OpResult>>) {
    (later.0, if later.1.None? then None else Some(done + later.1.value))
  }

  lemma AfterNext<S>(done: seq<OpResult>, next: S, result: OpResult, limit: int, count: nat,
                     later: (S, Option<seq<OpResult>>))
    ensures After(done, Combined(next, Some(result), limit, count, later))
            == if limit > 0 && count >= limit then (next, Some(done + [result])) else After(done + [result], later)
  {
    if later.1.Some? { assert done + ([result] + later.1.value) == done + [result] + later.1.value; }
  }

  // What is still to come before one operation, from what is after it.
  lemma LoopStep<S>(sv: Server<S>, s: S, body: Json, ops: seq<BulkOp>, n: nat, limit: int, failures: nat)
    requires DataBelow(body, ops) && n < |ops|
    ensures var (next, result) := RunOp(sv, s, body, ops[n]);
            var count := failures + (if result.Some? && Failed(result.value) then 1 else 0);
            RunOps(sv, s, body, ops[n..], limit, failures)
            == Combined(next, result, limit, count, RunOps(sv, next, body, ops[n + 1..], limit, count))
  {
    SuffixStep(ops, n);
    var (next, result) := RunOp(sv, s, body, ops[n]);
    var count := failures + (if result.Some? && Failed(result.value) then 1 else 0);
    UnfoldOps(sv, s, body, ops[n], ops[n + 1..], limit, failures, count);
  }

  lemma {:induction false} OpIsOnly<S(!new)>(sv: Server<S>, s: S, body: Json, op: BulkOp, after: S, r: Option<OpResult>)
    requires op.data.Some? ==> op.data.value < body && Unique(op.data.value)
    requires MayRunOp(sv, s, body, op, after, r)
    ensures (after, r) == RunOp(sv, s, body, op)
    decreases body, 0
  {
    if IsNested(sv, op) {
      var reply :| MayBulk(sv, s, op.data.value, after, reply) && r == Answer(op, reply);
      BulkIsOnly(sv, s, op.data.value, after, reply);
    }
  }

  lemma OneMore<S>(sv: Server<S>, s: S, body: Json, ops: seq<BulkOp>, k: nat, limit: int, done: seq<OpResult>, next: S,
                   r: OpResult)
    requires DataBelow(body, ops) && k < |ops| && (next, Some(r)) == RunOp(sv, s, body, ops[k])
    requires limit > 0 ==> Failures(done + [r]) < limit
    ensures After(done, RunOps(sv, s, body, ops[k..], limit, Failures(done)))
            == After(done + [r], RunOps(sv, next, body, ops[k + 1..], limit, Failures(done + [r])))
  {
    FailuresStep(done, r);
    LoopStep(sv, s, body, ops, k, limit, Failures(done));
    AfterNext(done, next, r, limit, Failures(done + [r]),
              RunOps(sv, next, body, ops[k + 1..], limit, Failures(done + [r])));
  }

  // The first n results, when the limit is not reached by them.
  lemma {:induction false} PrefixIsOnly<S(!new)>(sv: Server<S>, s: S, body: Json, ops: seq<BulkOp>, limit: int,
                                                 trace: seq<S>, done: seq<OpResult>, n: nat)
    requires DataBelow(body, ops) && AllUnique(ops) && Traces(sv, s, body, ops, trace, done) && n <= |done|
    requires limit > 0 ==> Failures(done[..n]) < limit
    ensures RunOps(sv, s, body, ops, limit, 0)
            == After(done[..n], RunOps(sv, trace[n], body, ops[n..], limit, Failures(done[..n])))
    decreases body, 1, n
  {
    if n == 0 {
      assert ops[0..] == ops && done[..0] == [];
      var later := RunOps(sv, s, body, ops, limit, 0);
      if later.1.Some? { assert [] + later.1.value == later.1.value; }
    } else {
      var k := n - 1;
      assert done[..n] == done[..k] + [done[k]];
      FailuresStep(done[..k], done[k]);
      PrefixIsOnly(sv, s, body, ops, limit, trace, done, k);
      OpIsOnly(sv, trace[k], body, ops[k], trace[n], Some(done[k]));
      OneMore(sv, trace[k], body, ops, k, limit, done[..k], trace[n], done[k]);
    }
  }

  // All operations are done, below the limit.
  lemma {:induction false} EndIsOnly<S(!new)>(sv: Server<S>, s: S, body: Json, ops: seq<BulkOp>, limit: int,
                                              trace: seq<S>, done: seq<OpResult>)
    requires DataBelow(body, ops) && AllUnique(ops) && Traces(sv, s, body, ops, trace, done) && |done| == |ops|
    requires limit > 0 ==> Failures(done) < limit
    ensures RunOps(sv, s, body, ops, limit, 0) == (trace[|done|], Some(done))
    decreases body, 2, 0
  {
    assert done[..|done|] == done && done + [] == done;
    PrefixIsOnly(sv, s, body, ops, limit, trace, done, |done|);
  }

  // The last result reaches the limit.
  lemma {:induction false} LimitIsOnly<S(!new)>(sv: Server<S>, s: S, body: Json, ops: seq<BulkOp>, limit: int,
                                                trace: seq<S>, done: seq<OpResult>)
    requires DataBelow(body, ops) && AllUnique(ops) && Traces(sv, s, body, ops, trace, done)
    requires 0 < limit <= Failures(done) && WithinLimit(limit, done)
    ensures RunOps(sv, s, body, ops, limit, 0) == (trace[|done|], Some(done))
    decreases body, 2, 0
  {
    var k := |done| - 1;
    assert done[..k] + [done[k]] == done;
    FailuresStep(done[..k], done[k]);
    PrefixIsOnly(sv, s, body, ops, limit, trace, done, k);
    OpIsOnly(sv, trace[k], body, ops[k], trace[k + 1], Some(done[k]));
    LoopStep(sv, trace[k], body, ops, k, limit, Failures(done[..k]));
    AfterNext(done[..k], trace[k + 1], done[k], limit, Failures(done),
              RunOps(sv, trace[k + 1], body, ops[k + 1..], limit, Failures(done)));
  }

  // The next operation panics.
  lemma {:induction false} PanicIsOnly<S(!new)>(sv: Server<S>, s: S, body: Json, ops: seq<BulkOp>, limit: int,
                                                trace: seq<S>, done: seq<OpResult>, after: S)
    requires DataBelow(body, ops) && AllUnique(ops) && Traces(sv, s, body, ops, trace, done) && |done| < |ops|
    requires limit > 0 ==> Failures(done) < limit
    requires MayRunOp(sv, trace[|done|], body, ops[|done|], after, None)
    ensures RunOps(sv, s, body, ops, limit, 0) == (after, None)
    decreases body, 2, 0
  {
    var n := |done|;
    assert done[..n] == done;
    PrefixIsOnly(sv, s, body, ops, limit, trace, done, n);
    OpIsOnly(sv, trace[n], body, ops[n], after, None);
    LoopStep(sv, trace[n], body, ops, n, limit, Failures(done));
  }

  lemma {:induction false} RunOpsIsOnly<S(!new)>(sv: Server<S>, s: S, body: Json, ops: seq<BulkOp>, limit: int,
                                                 after: S, results: Option<seq<OpResult>>)
    requires DataBelow(body, ops) && AllUnique(ops) && MayRunOps(sv, s, body, ops, limit, after, results)
    ensures (after, results) == RunOps(sv, s, body, ops, limit, 0)
    decreases body, 2, 1
  {
    var trace, done :|
      Traces(sv, s, body, ops, trace, done)
      && (results.Some? ==> results.value == done && after == trace[|done|] && Stops(ops, limit, done))
      && (results.None? ==>
            |done| < |ops| && (limit > 0 ==> Failures(done) < limit)
            && MayRunOp(sv, trace[|done|], body, ops[|done|], after, None));
    if results.None? {
      PanicIsOnly(sv, s, body, ops, limit, trace, done, after);
    } else if limit > 0 && Failures(done) >= limit {
      LimitIsOnly(sv, s, body, ops, limit, trace, done);
    } else {
      EndIsOnly(sv, s, body, ops, limit, trace, done);
    }
  }

  // The outcome of a body without case clashes is that of the specification.
  lemma {:induction false} BulkIsOnly<S(!new)>(sv: Server<S>, s: S, body: Json, after: S, reply: Option<Reply>)
    requires Unique(body) && MayBulk(sv, s, body, after, reply)
    ensures (after, reply) == RunBulk(sv, s, body)
    decreases body, 3
  {
    if refusal :| MayAccept(sv.maxBulkOps, body, Err(refusal)) && after == s && reply == Some(refusal) {
      AcceptedIsOnly(sv.maxBulkOps, body, Err(refusal));
    } else {
      var req, results :|
        MayAccept(sv.maxBulkOps, body, Ok(req)) && DataBelow(body, req.ops)
        && MayRunOps(sv, s, body, req.ops, req.failOnErrors, after, results) && reply == Results(results);
      AcceptedIsOnly(sv.maxBulkOps, body, Ok(req));
      RunOpsIsOnly(sv, s, body, req.ops, req.failOnErrors, after, results);
    }
  }
}
