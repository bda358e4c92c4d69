// The bulk handler: a loop over the operations of a request, recursive through the router for bulk
// requests nested inside.
module BulkHandling {
  import opened Text
  import opened Values
  import opened BulkRequests
  import opened Bulk
  import opened BulkOutcomes
  import opened BulkLimits

  // On any body the handler has one of the outcomes that the prefix law allows, and the one of the
  // specification when no keys clash.
  class Handler<S(!new)> {
    var state: S
    const server: Server<S>

    constructor (server: Server<S>, state: S)
      ensures this.server == server && this.state == state
    {
      this.server, this.state := server, state;
    }

    method Accept(body: Json) returns (r: Result<BulkRequest, Reply>)
      ensures MayAccept(server.maxBulkOps, body, r)
      ensures r.Ok? ==> DataBelow(body, r.value.ops)
    {
      if Decoded(body).None? { return Err(Refusal(400, InvalidBody)); }
      var m := Decoded(body).value;
      var req := ParseBulkRequest(m);
      if body.Null? { NoOperations(req); }
      r := Checked(server.maxBulkOps, req);
    }

    lemma NoOperations(req: Option<BulkRequest>)
      requires MayParse(map[], req)
      ensures req == None
    {
    }

    // None is a panic. The state an operation leaves stays, whatever happens after it.
    method HandleBulk(body: Json) returns (r: Option<Reply>)
      modifies this
      ensures MayBulk(server, old(state), body, state, r)
      ensures Unique(body) ==> (state, r) == RunBulk(server, old(state), body)
      decreases body, 2, 0
    {
      ghost var before := state;
      var req := Accept(body);
      if req.Err? {
        r := Some(req.error);
      } else {
        var results := ExecuteOps(body, req.value.ops, req.value.failOnErrors);
        r := Results(results);
      }
      if Unique(body) { BulkIsOnly(server, before, body, state, r); }
    }

    method ExecuteOps(body: Json, ops: seq<BulkOp>, failOnErrors: int) returns (r: Option<seq<OpResult>>)
      requires DataBelow(body, ops)
      modifies this
      ensures MayRunOps(server, old(state), body, ops, failOnErrors, state, r)
      ensures AllUnique(ops) ==> (state, r) == RunOps(server, old(state), body, ops, failOnErrors, 0)
      ensures r.Some? ==> StopsAt(r.value, |ops|, failOnErrors)
      decreases body, 1, 1
    {
      ghost var before := state;
      r := ExecuteInOrder(body, ops, failOnErrors);
      if r.Some? { RepliesStop(server, before, body, ops, failOnErrors, state, r.value); }
      if AllUnique(ops) { RunOpsIsOnly(server, before, body, ops, failOnErrors, state, r); }
    }

    method ExecuteInOrder(body: Json, ops: seq<BulkOp>, failOnErrors: int) returns (r: Option<seq<OpResult>>)
      requires DataBelow(body, ops)
      modifies this
      ensures MayRunOps(server, old(state), body, ops, failOnErrors, state, r)
      decreases body, 1, 0
    {
      var results := [];
      var errorCount := 0;
      ghost var before, trace := state, [state];
      TraceStart(server, state, body, ops);
      for n := 0 to |ops|
        invariant |results| == n && Traces(server, before, body, ops, trace, results) && trace[n] == state
        invariant errorCount == Failures(results) && (failOnErrors > 0 ==> errorCount < failOnErrors)
      {
        var result := ExecuteBulkOp(body, ops[n]);
        if result.None? {
          EndsInPanic(server, before, body, ops, failOnErrors, trace, results, state);
          return None;
        }
        TraceNext(server, before, body, ops, trace, results, state, result.value);
        CountStep(failOnErrors, results, result.value);
        if Failed(result.value) { errorCount := errorCount + 1; }
        results, trace := results + [result.value], trace + [state];
        if failOnErrors > 0 && errorCount >= failOnErrors {
          EndsWithResults(server, before, body, ops, failOnErrors, trace, results);
          return Some(results);
        }
      }
      StopsAtEnd(ops, failOnErrors, results);
      EndsWithResults(server, before, body, ops, failOnErrors, trace, results);
      r := Some(results);
    }

    method ExecuteBulkOp(body: Json, op: BulkOp) returns (r: Option<OpResult>)
      requires op.data.Some? ==> op.data.value < body
      modifies this
      ensures MayRunOp(server, old(state), body, op, state, r)
      ensures (op.data.Some? ==> Unique(op.data.value)) ==> (state, r) == RunOp(server, old(state), body, op)
      decreases body, 0, 0
    {
      var reply := Some(Refusal(400, MissingPath));
      if op.path == "" {
      } else if !server.parses(op.path) {
        reply := Some(Refusal(400, InvalidUrl));
      } else if IsBulkPath(op.path) {
        if op.verb != "POST" {
          reply := Some(Refusal(405, MethodNotAllowed));
        } else if op.data.None? {
          reply := None;
        } else {
          reply := HandleBulk(op.data.value);
        }
      } else {
        var outcome := server.handle(state, op.verb, op.path, op.data);
        state, reply := outcome.0, outcome.1;
      }
      r := Answer(op, reply);
    }
  }
}
