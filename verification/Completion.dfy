/** The failover loop of a request that is not streamed. */
module Completion {
  import opened Options
  import opened Routing
  import opened RouterModel
  import opened DecisionRouting
  import opened Upstream
  import opened Relay

  function Flatten(chunks: seq<Bytes>): Bytes {
    if chunks == [] then [] else chunks[0] + Flatten(chunks[1..])
  }

  lemma {:induction false} FlattenAppend(chunks: seq<Bytes>, chunk: Bytes)
    ensures Flatten(chunks + [chunk]) == Flatten(chunks) + chunk
  {
    if chunks == [] {
      assert Flatten([chunk]) == chunk + Flatten([]);
    } else {
      assert (chunks + [chunk])[1..] == chunks[1..] + [chunk];
      FlattenAppend(chunks[1..], chunk);
    }
  }

  /** What the non-streaming client call hands back: the body read to its end, or the
    * error it stands for. */
  datatype Reply = Read(status: nat, content: Bytes) | Failed(why: Failure)

  /** One non-streaming call. Whatever happens, a response that was opened is closed. */
  method Complete(b: Behaviour) returns (r: Reply, ghost response: Response?)
    ensures response != null <==> b.Answers?
    ensures response != null ==> fresh(response) && response.closed
    ensures r.Read? <==> b.Answers? && b.ending.Ends?
    ensures r.Read? ==> r.status == b.status && r.content == Flatten(b.chunks)
    ensures r.Failed? ==> ReadFails(b, r.why)
  {
    response := null;
    match b {
      case NoCredential => r := Failed(CredentialUnavailable);
      case Unreachable => r := Failed(UpstreamUnavailable);
      case Answers(status, chunks, ending) =>
        var reply := new Response(chunks, ending);
        response := reply;
        var content := [];
        for i := 0 to |chunks|
          invariant content == Flatten(chunks[..i])
        {
          assert chunks[..i + 1] == chunks[..i] + [chunks[i]];
          FlattenAppend(chunks[..i], chunks[i]);
          content := content + chunks[i];
        }
        assert chunks[..|chunks|] == chunks;
        reply.closed := true;
        match ending {
          case Ends => r := Read(status, content);
          case Breaks(Transport) => r := Failed(UpstreamUnavailable);
          case Breaks(Mapped(code)) => r := Failed(Coded(code));
        }
    }
  }

  /** Whatever was opened is closed. */
  ghost predicate ReadThrough(b: Behaviour, response: Response?)
    reads response
  {
    (response != null <==> b.Answers?) && (response != null ==> response.closed)
  }

  /** One candidate: an answer with a status that speaks of the candidate is a failure too. */
  method TryOne(b: Behaviour) returns (r: Reply, ghost response: Response?)
    ensures ReadThrough(b, response)
    ensures r.Failed? ==> ReadFails(b, r.why) && CompleteVerdict(b) == Skip(r.why)
    ensures r.Read? ==> CompleteVerdict(b) == Commit && b.Answers? && r == Read(b.status, Flatten(b.chunks))
  {
    r, response := Complete(b);
    CompleteVerdictIs(b);
    if r.Read? && Retryable(r.status) {
      r := Failed(Http(r.status));
    }
  }

  /** Try candidates in order until one can be answered with. */
  method TryToComplete(cs: seq<Candidate>, bs: seq<Behaviour>, forwarded: Payload)
    returns (answer: Option<Reply>, attempts: seq<Attempt>, sent: seq<Payload>, ghost responses: seq<Response?>)
    requires |bs| == |cs|
    ensures Failover(cs, CompleteVerdicts(bs)) == if answer.Some? then Committed(attempts) else Exhausted(attempts)
    ensures |sent| == |responses| && AsksInOrder(forwarded, cs, sent)
    ensures |responses| == |attempts| + (if answer.Some? then 1 else 0) <= |bs|
    ensures answer.Some? ==> bs[|attempts|].Answers? && answer.value == Read(bs[|attempts|].status, Flatten(bs[|attempts|].chunks))
    ensures forall j :: 0 <= j < |responses| ==> ReadThrough(bs[j], responses[j])
  {
    ghost var vs := CompleteVerdicts(bs);
    attempts, sent, responses := [], [], [];
    for i := 0 to |cs|
      invariant |attempts| == |sent| == |responses| == i && AsksInOrder(forwarded, cs, sent)
      invariant Failover(cs, vs) == Tail(attempts, Failover(cs[i..], vs[i..]))
      invariant forall j :: 0 <= j < i ==> ReadThrough(bs[j], responses[j])
    {
      FailoverStep(cs, vs, i, attempts);
      sent := sent + [CandidatePayload(forwarded, cs[i])];
      var r, response := TryOne(bs[i]);
      responses := responses + [response];
      match r {
        case Failed(why) => attempts := attempts + [Attempt(cs[i].id, why)];
        case Read(_, _) => return Some(r), attempts, sent, responses;
      }
    }
    answer := None;
  }

  /** The whole loop. It either answers with one candidate's whole body, and the
    * router hears of that candidate, or records that every candidate was passed over;
    * no error gets through it and no response stays open. */
  method CompleteRequest(router: DecisionRouter, decision: RouteDecision, bs: seq<Behaviour>, forwarded: Payload)
    returns (answer: Option<Reply>, attempts: seq<Attempt>, sent: seq<Payload>, ghost responses: seq<Response?>)
    requires router.Valid() && |bs| == |decision.candidates|
    modifies decision, router.Sessions()
    ensures router.Valid()
    ensures ReadPassed(decision.candidates, bs, attempts)
    ensures |responses| == |attempts| + (if |attempts| < |bs| then 1 else 0)
    ensures forall j :: 0 <= j < |responses| ==> ReadThrough(bs[j], responses[j])
    ensures |sent| == |responses| && AsksInOrder(forwarded, decision.candidates, sent)
    ensures attempts == Failover(decision.candidates, CompleteVerdicts(bs)).attempts
    ensures if |attempts| == |bs| then
        answer == None && decision.attempts == attempts && decision.selected == old(decision.selected)
      else
        && bs[|attempts|].ending.Ends? && !Refuses(bs[|attempts|].status) && Records(decision, attempts)
        && answer == Some(Read(bs[|attempts|].status, Flatten(bs[|attempts|].chunks)))
    ensures forall i :: 0 <= i < |router.log| && router.log[i] == decision ==>
      router.View() ==
        if |attempts| < |decision.candidates|
        then Step(router.candidates, router.maxSessions, old(router.View()), Finalize(i, decision.candidates[|attempts|]))
        else old(router.View())
  {
    ReadPassedIs(decision.candidates, bs);
    answer, attempts, sent, responses := TryToComplete(decision.candidates, bs, forwarded);
    Report(router, decision, answer.Some?, attempts);
  }

  /** What the router and the decision hear when the loop has stopped. */
  method Report(router: DecisionRouter, decision: RouteDecision, answered: bool, attempts: seq<Attempt>)
    requires router.Valid() && (answered ==> |attempts| < |decision.candidates|)
    modifies decision, router.Sessions()
    ensures router.Valid()
    ensures if answered then Records(decision, attempts)
      else decision.attempts == attempts && decision.selected == old(decision.selected)
    ensures forall i :: 0 <= i < |router.log| && router.log[i] == decision ==>
      router.View() ==
        if answered
        then Step(router.candidates, router.maxSessions, old(router.View()), Finalize(i, decision.candidates[|attempts|]))
        else old(router.View())
  {
    if answered {
      router.Finalise(decision, decision.candidates[|attempts|], attempts);
    } else {
      decision.attempts := attempts;
    }
  }
}
