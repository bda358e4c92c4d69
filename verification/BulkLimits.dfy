// When a bulk request stops, told by the status codes of its replies.
module BulkLimits {
  import opened Text
  import opened Numbers
  import opened Comparisons
  import opened Values
  import opened BulkRequests
  import opened Bulk
  import opened BulkOutcomes

  // The places of the replies that are failures.
  function FailedAt(rs: seq<OpResult>): set<nat> { set k: nat | k < |rs| && rs[k].reply.status >= 300 }

  lemma {:induction false} FailuresAre(rs: seq<OpResult>)
    ensures Failures(rs) == |FailedAt(rs)|
  {
    if rs == [] {
      assert FailedAt(rs) == {};
    } else {
      var n := |rs| - 1;
      FailuresAre(rs[..n]);
      assert FailedAt(rs) == FailedAt(rs[..n]) + if rs[n].reply.status >= 300 then {n} else {};
    }
  }

  // With a limit, fewer than so many failures come before the last reply; replies are missing only when just
  // so many have failed, the last one too. Without a limit none are missing.
  predicate StopsAt(rs: seq<OpResult>, count: nat, limit: int) {
    |rs| <= count
    && (limit <= 0 ==> |rs| == count)
    && (limit > 0 && rs != [] ==> |FailedAt(rs[..|rs| - 1])| < limit)
    && (|rs| < count ==> rs != [] && |FailedAt(rs)| == limit && rs[|rs| - 1].reply.status >= 300)
  }

  lemma StopsByStatus(ops: seq<BulkOp>, limit: int, rs: seq<OpResult>)
    requires Stops(ops, limit, rs)
    ensures StopsAt(rs, |ops|, limit)
  {
    FailuresAre(rs);
    if rs != [] { FailuresAre(rs[..|rs| - 1]); }
  }

  // The replies of a list of operations, in any walk.
  lemma RepliesStop<S(!new)>(sv: Server<S>, s: S, body: Json, ops: seq<BulkOp>, limit: int, after: S, rs: seq<OpResult>)
    requires DataBelow(body, ops) && MayRunOps(sv, s, body, ops, limit, after, Some(rs))
    ensures StopsAt(rs, |ops|, limit)
  {
    StopsByStatus(ops, limit, rs);
  }

  // The answer to a bulk request: a refusal, or the replies of its operations up to its own limit.
  lemma BulkStops<S(!new)>(sv: Server<S>, s: S, body: Json, after: S, rs: seq<OpResult>)
    requires MayBulk(sv, s, body, after, Some(Reply(200, "", "", Nested(rs))))
    ensures exists req :: MayAccept(sv.maxBulkOps, body, Ok(req)) && Answers(req, rs)
  {
    var reply := Reply(200, "", "", Nested(rs));
    if MayAccept(sv.maxBulkOps, body, Err(reply)) {
      RefusedIsNoResult(sv.maxBulkOps, body, reply);
    } else {
      var req :| MayAccept(sv.maxBulkOps, body, Ok(req)) && Replied(sv, s, body, after, rs, req);
      RepliedAnswers(sv, s, body, after, rs, req);
    }
  }

  ghost predicate Replied<S(!new)>(sv: Server<S>, s: S, body: Json, after: S, rs: seq<OpResult>, req: BulkRequest) {
    DataBelow(body, req.ops) && MayRunOps(sv, s, body, req.ops, req.failOnErrors, after, Some(rs))
  }

  lemma RepliedAnswers<S(!new)>(sv: Server<S>, s: S, body: Json, after: S, rs: seq<OpResult>, req: BulkRequest)
    requires Replied(sv, s, body, after, rs, req)
    ensures Answers(req, rs)
  {
    RepliesStop(sv, s, body, req.ops, req.failOnErrors, after, rs);
    RepliesAnswer(sv, s, body, req.ops, req.failOnErrors, after, rs);
  }

  // The replies of the first operations in order, up to the request's limit.
  predicate Answers(req: BulkRequest, rs: seq<OpResult>) {
    StopsAt(rs, |req.ops|, req.failOnErrors)
    && forall k :: 0 <= k < |rs| ==> rs[k].verb == req.ops[k].verb && rs[k].bulkId == req.ops[k].bulkId
  }

  lemma RefusedIsNoResult(maxBulkOps: int, body: Json, refusal: Reply)
    requires MayAccept(maxBulkOps, body, Err(refusal))
    ensures refusal.content.Refused? && (refusal.status == 400 || refusal.status == 413)
  {
  }

  // Each reply carries the method and the identifier of its operation.
  lemma RepliesAnswer<S(!new)>(sv: Server<S>, s: S, body: Json, ops: seq<BulkOp>, limit: int, after: S,
                               rs: seq<OpResult>)
    requires DataBelow(body, ops) && MayRunOps(sv, s, body, ops, limit, after, Some(rs))
    ensures |rs| <= |ops| && forall k :: 0 <= k < |rs| ==> rs[k].verb == ops[k].verb && rs[k].bulkId == ops[k].bulkId
  {
    var trace :| Traces(sv, s, body, ops, trace, rs);
    forall k | 0 <= k < |rs| ensures rs[k].verb == ops[k].verb && rs[k].bulkId == ops[k].bulkId {
      assert MayRunOp(sv, trace[k], body, ops[k], trace[k + 1], Some(rs[k]));
    }
  }

  lemma NoneFailed(rs: seq<OpResult>)
    requires |FailedAt(rs)| == 0
    ensures forall k :: 0 <= k < |rs| ==> rs[k].reply.status < 300
  {
    forall k | 0 <= k < |rs| ensures rs[k].reply.status < 300 { assert k !in FailedAt(rs); }
  }

  // With a limit of one, a first reply of 404 is the only one.
  lemma NotFoundStops(rs: seq<OpResult>, count: nat)
    requires StopsAt(rs, count, 1) && rs != [] && rs[0].reply.status == 404
    ensures |rs| == 1
  {
    NoneFailed(rs[..|rs| - 1]);
  }

  // A request is too large exactly when there is a limit and more operations than that.
  lemma TooLarge(maxBulkOps: int, body: Json)
    requires Decoded(body).Some? && ParsedRequest(Decoded(body).value).Some?
    ensures var r := Accepted(maxBulkOps, body);
            var count := |ParsedRequest(Decoded(body).value).value.ops|;
            if 0 < maxBulkOps < count then r.Err? && r.error.status == 413 else r.Ok? && |r.value.ops| == count
  {
  }

  predicate IsWholePart(n: int, c: nat, p: nat) { 0 <= n && n * p <= c < (n + 1) * p }

  lemma Divided(c: nat, p: nat)
    requires p > 0
    ensures IsWholePart(c / p, c, p) && -(c / p) <= 0
  {
  }

  // The limit a request states: the whole part of its number, nothing when that is negative or no number.
  lemma LimitIs(v: Json)
    ensures v.Num? && v.n.coeff >= 0 ==> IsWholePart(FailOnErrors(v), v.n.coeff, Pow10(v.n.scale))
    ensures v.Num? && v.n.coeff < 0 ==> FailOnErrors(v) <= 0
    ensures !v.Num? ==> FailOnErrors(v) == 0
  {
    if v.Num? { Divided(if v.n.coeff >= 0 then v.n.coeff else -v.n.coeff, Pow10(v.n.scale)); }
  }

  lemma RequestLimit(m: Object, v: Json, items: seq<Json>)
    requires Unique(Obj(m)) && Holds(m, "failOnErrors", v) && Holds(m, "Operations", Arr(items))
    ensures var r := ParsedRequest(m);
            (r.Some? <==> forall i :: 0 <= i < |items| ==> ParsedOp(items[i]).Some?)
            && (r.Some? ==> r.value.failOnErrors == FailOnErrors(v) && |r.value.ops| == |items|)
  {
    HeldIsFound(m, "failOnErrors", v);
    HeldIsFound(m, "Operations", Arr(items));
  }

  // What no handler is asked about: a missing path and an unusable URL are bad requests, the bulk endpoint
  // takes POST alone.
  lemma RefusalCodes<S>(sv: Server<S>, s: S, body: Json, op: BulkOp)
    requires op.data.Some? ==> op.data.value < body
    ensures var (after, r) := RunOp(sv, s, body, op);
            (op.path == "" || !sv.parses(op.path) ==> r.Some? && r.value.reply.status == 400 && after == s)
            && (op.path != "" && sv.parses(op.path) && IsBulkPath(op.path) && op.verb != "POST" ==>
                  r.Some? && r.value.reply.status == 405 && after == s)
  {
  }
}
