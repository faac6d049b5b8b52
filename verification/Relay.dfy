/** The two failover loops of a chat request, and the response they end in. */
module Relay {
  import opened Options
  import opened Routing
  import opened RouterModel
  import opened DecisionRouting
  import opened Upstream

  predicate Retryable(status: nat) {
    status == 401 || status == 403 || status == 429 || status >= 500
  }

  predicate Successful(status: nat) {
    200 <= status < 300
  }

  // ---------------------------------------------------------------- verdicts

  /** How one try ends: with the next candidate, with this one's answer, or with an
    * error nobody in the loop catches. */
  datatype Verdict = Skip(why: Failure) | Commit | Escape

  function StreamVerdict(b: Behaviour): Verdict {
    match b
    case NoCredential => Skip(CredentialUnavailable)
    case Unreachable => Skip(UpstreamUnavailable)
    case Answers(status, chunks, ending) =>
      if Retryable(status) then Skip(Http(status))
      else if Successful(status) && chunks == [] && ending.Breaks? then
        match ending.error case Transport => Escape case Mapped(code) => Skip(Coded(code))
      else Commit
  }

  function CompleteVerdict(b: Behaviour): Verdict {
    match b
    case NoCredential => Skip(CredentialUnavailable)
    case Unreachable => Skip(UpstreamUnavailable)
    case Answers(status, _, ending) =>
      match ending
      case Breaks(Transport) => Skip(UpstreamUnavailable)
      case Breaks(Mapped(code)) => Skip(Coded(code))
      case Ends => if Retryable(status) then Skip(Http(status)) else Commit
  }

  // ---------------------------------------------------------------- what passes a candidate over

  /** Statuses that speak of the candidate and not of the request. */
  ghost predicate Refuses(status: nat) {
    status in {401, 403, 429} || status >= 500
  }

  /** The candidate is passed over by the streaming loop, for this reason. */
  ghost predicate StreamFails(b: Behaviour, why: Failure) {
    match b
    case NoCredential => why == CredentialUnavailable
    case Unreachable => why == UpstreamUnavailable
    case Answers(status, chunks, ending) =>
      || (Refuses(status) && why == Http(status))
      || (200 <= status <= 299 && chunks == [] && ending.Breaks? && ending.error.Mapped? && why == Coded(ending.error.code))
  }

  /** The one error that gets through the streaming loop: the client breaking before the first chunk. */
  ghost predicate StreamRaises(b: Behaviour) {
    b.Answers? && 200 <= b.status <= 299 && b.chunks == [] && b.ending == Breaks(Transport)
  }

  /** The candidate is passed over by the loop that reads whole answers, for this reason. */
  ghost predicate ReadFails(b: Behaviour, why: Failure) {
    match b
    case NoCredential => why == CredentialUnavailable
    case Unreachable => why == UpstreamUnavailable
    case Answers(status, _, ending) =>
      || (ending == Breaks(Transport) && why == UpstreamUnavailable)
      || (ending.Breaks? && ending.error.Mapped? && why == Coded(ending.error.code))
      || (ending.Ends? && Refuses(status) && why == Http(status))
  }

  /** The candidates before the `n`-th were passed over, each with its reason, and that one,
    * if there is one, was not. */
  ghost predicate StreamPassed(cs: seq<Candidate>, bs: seq<Behaviour>, attempts: seq<Attempt>) {
    && |attempts| <= |bs| == |cs|
    && (forall j :: 0 <= j < |attempts| ==> attempts[j].candidate == cs[j].id && StreamFails(bs[j], attempts[j].why))
    && (|attempts| < |bs| ==> var b := bs[|attempts|]; b.Answers? && forall why :: !StreamFails(b, why))
  }

  ghost predicate ReadPassed(cs: seq<Candidate>, bs: seq<Behaviour>, attempts: seq<Attempt>) {
    && |attempts| <= |bs| == |cs|
    && (forall j :: 0 <= j < |attempts| ==> attempts[j].candidate == cs[j].id && ReadFails(bs[j], attempts[j].why))
    && (|attempts| < |bs| ==> var b := bs[|attempts|]; b.Answers? && forall why :: !ReadFails(b, why))
  }

  lemma {:induction false} StreamVerdictIs(b: Behaviour)
    ensures forall why :: StreamFails(b, why) <==> StreamVerdict(b) == Skip(why)
    ensures StreamRaises(b) <==> StreamVerdict(b).Escape?
    ensures !StreamVerdict(b).Skip? ==> b.Answers? && !Refuses(b.status)
  {
  }

  lemma {:induction false} CompleteVerdictIs(b: Behaviour)
    ensures forall why :: ReadFails(b, why) <==> CompleteVerdict(b) == Skip(why)
    ensures CompleteVerdict(b).Commit? ==> b.Answers? && b.ending.Ends? && !Refuses(b.status)
    ensures !CompleteVerdict(b).Escape?
  {
  }

  lemma {:induction false} StreamPassedIs(cs: seq<Candidate>, bs: seq<Behaviour>)
    requires |bs| == |cs|
    ensures var r := Failover(cs, StreamVerdicts(bs));
      && StreamPassed(cs, bs, r.attempts) && (r.Exhausted? <==> |r.attempts| == |bs|)
      && (r.Escaped? <==> |r.attempts| < |bs| && StreamRaises(bs[|r.attempts|]))
  {
    var attempts := Failover(cs, StreamVerdicts(bs)).attempts;
    FailoverIs(cs, StreamVerdicts(bs));
    forall j | 0 <= j < |attempts| ensures attempts[j].candidate == cs[j].id && StreamFails(bs[j], attempts[j].why) {
      StreamVerdictIs(bs[j]);
    }
    if |attempts| < |bs| { StreamVerdictIs(bs[|attempts|]); }
  }

  lemma {:induction false} ReadPassedIs(cs: seq<Candidate>, bs: seq<Behaviour>)
    requires |bs| == |cs|
    ensures var r := Failover(cs, CompleteVerdicts(bs));
      && ReadPassed(cs, bs, r.attempts) && (r.Exhausted? <==> |r.attempts| == |bs|) && !r.Escaped?
      && (|r.attempts| < |bs| ==> bs[|r.attempts|].ending.Ends? && !Refuses(bs[|r.attempts|].status))
  {
    var attempts := Failover(cs, CompleteVerdicts(bs)).attempts;
    FailoverIs(cs, CompleteVerdicts(bs));
    forall j | 0 <= j < |attempts| ensures attempts[j].candidate == cs[j].id && ReadFails(bs[j], attempts[j].why) {
      CompleteVerdictIs(bs[j]);
    }
    if |attempts| < |bs| { CompleteVerdictIs(bs[|attempts|]); }
  }

  // ---------------------------------------------------------------- the loops' outcome

  /** How a loop ends. The candidate it ends on is the one after the attempts. */
  datatype Result = Committed(attempts: seq<Attempt>) | Escaped(attempts: seq<Attempt>) | Exhausted(attempts: seq<Attempt>)

  function After(attempt: Attempt, r: Result): Result {
    match r
    case Committed(a) => Committed([attempt] + a)
    case Escaped(a) => Escaped([attempt] + a)
    case Exhausted(a) => Exhausted([attempt] + a)
  }

  function Failover(cs: seq<Candidate>, vs: seq<Verdict>): Result
    requires |cs| == |vs|
  {
    if cs == [] then Exhausted([])
    else match vs[0]
      case Skip(why) => After(Attempt(cs[0].id, why), Failover(cs[1..], vs[1..]))
      case Commit => Committed([])
      case Escape => Escaped([])
  }

  function StreamVerdicts(bs: seq<Behaviour>): seq<Verdict> {
    seq(|bs|, i requires 0 <= i < |bs| => StreamVerdict(bs[i]))
  }

  function CompleteVerdicts(bs: seq<Behaviour>): seq<Verdict> {
    seq(|bs|, i requires 0 <= i < |bs| => CompleteVerdict(bs[i]))
  }

  /** Each candidate is tried at most once, in order; the attempts are exactly the
    * candidates passed over, each with its reason; the first one not passed over
    * ends the loop. */
  lemma {:induction false} FailoverIs(cs: seq<Candidate>, vs: seq<Verdict>)
    requires |cs| == |vs|
    ensures
      var r := Failover(cs, vs);
      var n := |r.attempts|;
      && n <= |cs|
      && (forall j :: 0 <= j < n ==> vs[j].Skip? && r.attempts[j] == Attempt(cs[j].id, vs[j].why))
      && (r.Exhausted? <==> n == |cs|)
      && (r.Committed? <==> n < |cs| && vs[n].Commit?)
      && (r.Escaped? <==> n < |cs| && vs[n].Escape?)
  {
    if cs != [] && vs[0].Skip? {
      FailoverIs(cs[1..], vs[1..]);
    }
  }

  // ---------------------------------------------------------------- streaming and not

  /** The body breaks where the two loops notice differently. */
  predicate Fragile(b: Behaviour) {
    b.Answers? && b.ending.Breaks? && !(b.ending.error.Mapped? && b.chunks == [] && 200 <= b.status <= 299)
  }

  lemma VerdictsDifferIff(b: Behaviour)
    ensures StreamVerdict(b) != CompleteVerdict(b) <==> Fragile(b)
  {
  }

  /** Same behaviours, same outcome - candidate, attempts and all - exactly when no
    * candidate the streaming loop gets to has a fragile body. */
  lemma {:induction false} LoopsAgreeIff(cs: seq<Candidate>, bs: seq<Behaviour>)
    requires |cs| == |bs|
    ensures
      var stream := Failover(cs, StreamVerdicts(bs));
      stream == Failover(cs, CompleteVerdicts(bs))
      <==> forall j :: 0 <= j <= |stream.attempts| && j < |bs| ==> !Fragile(bs[j])
  {
    if cs != [] {
      var s, c := StreamVerdicts(bs), CompleteVerdicts(bs);
      var stream, complete := Failover(cs, s), Failover(cs, c);
      VerdictsDifferIff(bs[0]);
      FailoverIs(cs, s);
      FailoverIs(cs, c);
      if Fragile(bs[0]) {
        assert 0 <= 0 <= |stream.attempts|;
      } else if s[0].Skip? {
        assert s[1..] == StreamVerdicts(bs[1..]) && c[1..] == CompleteVerdicts(bs[1..]);
        LoopsAgreeIff(cs[1..], bs[1..]);
        TailFragile(bs, |stream.attempts|);
        AfterInjective(Attempt(cs[0].id, s[0].why), Failover(cs[1..], s[1..]), Failover(cs[1..], c[1..]));
      }
    }
  }

  lemma AfterInjective(attempt: Attempt, a: Result, b: Result)
    ensures After(attempt, a) == After(attempt, b) <==> a == b
    ensures |After(attempt, a).attempts| == |a.attempts| + 1
  {
    assert After(attempt, a).attempts[1..] == a.attempts && After(attempt, b).attempts[1..] == b.attempts;
  }

  lemma TailFragile(bs: seq<Behaviour>, n: nat)
    requires bs != [] && n >= 1 && !Fragile(bs[0])
    ensures (forall j :: 0 <= j <= n && j < |bs| ==> !Fragile(bs[j]))
       <==> (forall j :: 0 <= j <= n - 1 && j < |bs[1..]| ==> !Fragile(bs[1..][j]))
  {
    if forall j :: 0 <= j <= n - 1 && j < |bs[1..]| ==> !Fragile(bs[1..][j]) {
      forall j | 0 <= j <= n && j < |bs| ensures !Fragile(bs[j]) {
        if j > 0 { assert bs[1..][j - 1] == bs[j]; }
      }
    }
  }

  // ---------------------------------------------------------------- what is sent

  datatype Field = Model | Named(name: nat)

  datatype Value = Text(text: string) | Json(value: nat)

  type Payload = map<Field, Value>

  function CandidatePayload(forwarded: Payload, candidate: Candidate): (sent: Payload)
    ensures Asks(forwarded, candidate, sent)
  {
    forwarded[Model := Text(candidate.model)]
  }

  /** `sent` asks for the candidate's model and is otherwise what the client sent. */
  ghost predicate Asks(forwarded: Payload, candidate: Candidate, sent: Payload) {
    && Model in sent && sent[Model] == Text(candidate.model)
    && sent - {Model} == forwarded - {Model}
  }

  /** Candidates were asked in order, each once, each with its own model only. */
  ghost predicate AsksInOrder(forwarded: Payload, cs: seq<Candidate>, sent: seq<Payload>) {
    |sent| <= |cs| && forall j :: 0 <= j < |sent| ==> Asks(forwarded, cs[j], sent[j])
  }

  // ---------------------------------------------------------------- serving a committed body

  /** The server pulls the body until it ends or the client has gone after `pulls`
    * chunks, in the latter case possibly cancelling a pull that waits for the
    * upstream; then the response object closes the iterator it was given. */
  method Serve(body: Relayed, pulls: nat, cancel: bool) returns (delivered: seq<Bytes>)
    requires Unread(body)
    modifies Objects(body), ResponseOf(body)`closed
    ensures delivered == if pulls < |ResponseOf(body).chunks| then ResponseOf(body).chunks[..pulls] else ResponseOf(body).chunks
    ensures ResponseOf(body).closed <==> pulls >= 1 || (cancel && body.Raw?)
  {
    match body {
      case Raw(i) => delivered := ServeRaw(i, pulls, cancel);
      case Prefixed(w) => delivered := ServePrefixed(w, pulls, cancel);
    }
  }

  method ServeRaw(i: Iterate, pulls: nat, cancel: bool) returns (delivered: seq<Bytes>)
    requires i.state.NotStarted? && i.pos == 0 && !i.response.closed
    modifies i, i.response`closed
    ensures delivered == if pulls < |i.response.chunks| then i.response.chunks[..pulls] else i.response.chunks
    ensures i.response.closed <==> pulls >= 1 || cancel
  {
    delivered := [];
    var left := pulls;
    while left > 0
      invariant 0 <= left <= pulls && i.pos == pulls - left <= |i.response.chunks|
      invariant !i.state.Finished? && !i.response.closed && (if left == pulls then i.state.NotStarted? else i.state.Suspended?)
      invariant delivered == i.response.chunks[..i.pos]
    {
      var item := i.Next();
      if !item.Yielded? {
        i.Close();
        return;
      }
      delivered := delivered + [item.chunk];
      left := left - 1;
    }
    if cancel {
      i.Cancel();
    }
    i.Close();
    assert i.response.chunks[..|i.response.chunks|] == i.response.chunks;
  }

  method ServePrefixed(w: WithFirst, pulls: nat, cancel: bool) returns (delivered: seq<Bytes>)
    requires w.state.NotStarted? && w.Live() && !w.source.response.closed
    modifies w, w.source, w.source.response`closed
    ensures delivered == if pulls < |w.source.response.chunks| then w.source.response.chunks[..pulls] else w.source.response.chunks
    ensures w.source.response.closed <==> pulls >= 1
  {
    delivered := [];
    var left := pulls;
    while left > 0
      invariant 0 <= left <= pulls && w.Live() && w.Given() == pulls - left <= |w.source.response.chunks|
      invariant !w.state.Finished? && !w.source.response.closed && (if left == pulls then w.state.NotStarted? else w.state.Suspended?)
      invariant delivered == w.source.response.chunks[..pulls - left]
    {
      var item := w.Next();
      if !item.Yielded? {
        w.Close();
        return;
      }
      delivered := delivered + [item.chunk];
      left := left - 1;
    }
    if cancel && w.state.Suspended? {
      w.Cancel();
    }
    w.Close();
    assert w.source.response.chunks[..|w.source.response.chunks|] == w.source.response.chunks;
  }

  // ---------------------------------------------------------------- the streaming loop

  /** One try of the streaming loop. */
  datatype Try = Next(why: Failure) | Ready(status: nat, body: Relayed) | Blank(status: nat) | Thrown(error: PullError)

  function VerdictOf(t: Try): Verdict {
    match t
    case Next(why) => Skip(why)
    case Ready(_, _) => Commit
    case Blank(_) => Commit
    case Thrown(_) => Escape
  }

  method TryStream(b: Behaviour) returns (t: Try, ghost response: Response?)
    ensures VerdictOf(t) == StreamVerdict(b)
    ensures if t.Next? then StreamFails(b, t.why) else forall why :: !StreamFails(b, why)
    ensures t.Thrown? <==> StreamRaises(b)
    ensures response != null <==> b.Answers?
    ensures response != null ==> fresh(response) && response.chunks == b.chunks
    ensures response != null && !t.Ready? ==> (response.closed <==> !Refuses(b.status))
    ensures t.Ready? ==> fresh(Objects(t.body)) && ResponseOf(t.body) == response && Unread(t.body)
    ensures t.Ready? ==> t.status == b.status && (t.body.Prefixed? <==> Successful(b.status))
    ensures t.Blank? ==> t.status == b.status && Successful(b.status) && b.chunks == []
  {
    response := null;
    StreamVerdictIs(b);
    match b {
      case NoCredential => t := Next(CredentialUnavailable);
      case Unreachable => t := Next(UpstreamUnavailable);
      case Answers(status, chunks, ending) =>
        var reply := new Response(chunks, ending);
        response := reply;
        var iterate := new Iterate(reply);
        if Retryable(status) {
          iterate.Close();
          return Next(Http(status)), response;
        }
        if Successful(status) {
          var item := iterate.Next();
          match item {
            case Stopped => t := Blank(status);
            case Raised(Transport) => t := Thrown(Transport);
            case Raised(Mapped(code)) =>
              iterate.Close();
              t := Next(Coded(code));
            case Yielded(first) =>
              var withFirst := new WithFirst(first, iterate);
              t := Ready(status, Prefixed(withFirst));
          }
        } else {
          t := Ready(status, Raw(iterate));
        }
    }
  }

  /** A response that was passed over is closed unless its status was retryable:
    * then its generator was closed before it ever ran. */
  ghost predicate PassedOver(b: Behaviour, response: Response?)
    reads response
  {
    (response != null <==> b.Answers?) && (response != null ==> (response.closed <==> !Refuses(b.status)))
  }

  /** Where the loop stands when it has stopped at `last`, or run out of candidates. */
  ghost predicate Stopped(bs: seq<Behaviour>, last: Option<Try>, n: nat, responses: seq<Response?>)
    reads responses
  {
    && |responses| == n + (if last.Some? then 1 else 0) <= |bs|
    && (forall j :: 0 <= j < n ==> PassedOver(bs[j], responses[j]))
    && (last.Some? ==> !last.value.Next? && responses[n] != null && bs[n].Answers? && responses[n].chunks == bs[n].chunks)
    && (last.Some? && !last.value.Ready? ==> responses[n].closed)
    && (last.Some? && last.value.Blank? ==> Successful(bs[n].status) && bs[n].chunks == [])
  }

  /** A body ready to be relayed is the last response's, and nothing was read of it yet. */
  ghost predicate ReadyToRelay(bs: seq<Behaviour>, body: Relayed, n: nat, responses: seq<Response?>)
    reads Objects(body), ResponseOf(body)
  {
    && n < |bs| && n < |responses| && bs[n].Answers?
    && ResponseOf(body) == responses[n] && responses[n] !in responses[..n] && Unread(body)
    && (body.Prefixed? <==> Successful(bs[n].status))
  }

  /** Try candidates in order until one answers or an error gets through. */
  method TryCandidates(cs: seq<Candidate>, bs: seq<Behaviour>, forwarded: Payload)
    returns (last: Option<Try>, attempts: seq<Attempt>, sent: seq<Payload>, ghost responses: seq<Response?>)
    requires |bs| == |cs|
    ensures |sent| == |responses| && AsksInOrder(forwarded, cs, sent)
    ensures Failover(cs, StreamVerdicts(bs)) ==
      match last
      case None => Exhausted(attempts)
      case Some(t) => if t.Thrown? then Escaped(attempts) else Committed(attempts)
    ensures |attempts| <= |bs| && Stopped(bs, last, |attempts|, responses)
    ensures forall r <- responses :: r != null ==> fresh(r)
    ensures last.Some? && last.value.Ready? ==>
      fresh(Objects(last.value.body)) && fresh(ResponseOf(last.value.body))
      && ReadyToRelay(bs, last.value.body, |attempts|, responses)
  {
    ghost var vs := StreamVerdicts(bs);
    attempts, sent, responses := [], [], [];
    for i := 0 to |cs|
      invariant |attempts| == |sent| == |responses| == i && AsksInOrder(forwarded, cs, sent)
      invariant Failover(cs, vs) == Tail(attempts, Failover(cs[i..], vs[i..]))
      invariant forall j :: 0 <= j < i ==> PassedOver(bs[j], responses[j])
      invariant forall r <- responses :: r != null ==> fresh(r)
    {
      sent := sent + [CandidatePayload(forwarded, cs[i])];
      var t, response := TryStream(bs[i]);
      FailoverStep(cs, vs, i, attempts);
      if t.Next? {
        attempts := attempts + [Attempt(cs[i].id, t.why)];
        responses := responses + [response];
      } else {
        return Some(t), attempts, sent, responses + [response];
      }
    }
    last := None;
  }

  lemma FailoverStep(cs: seq<Candidate>, vs: seq<Verdict>, i: nat, attempts: seq<Attempt>)
    requires i < |cs| == |vs|
    ensures Tail(attempts, Failover(cs[i..], vs[i..])) ==
      match vs[i]
      case Skip(why) => Tail(attempts + [Attempt(cs[i].id, why)], Failover(cs[i + 1..], vs[i + 1..]))
      case Commit => Committed(attempts)
      case Escape => Escaped(attempts)
  {
    assert cs[i..][1..] == cs[i + 1..] && vs[i..][1..] == vs[i + 1..];
  }

  /** The whole streaming loop: the router hears of the candidate that answered, and
    * the decision of the attempts, exactly as the verdicts say. */
  method StreamLoop(router: DecisionRouter, decision: RouteDecision, bs: seq<Behaviour>, forwarded: Payload)
    returns (last: Option<Try>, attempts: seq<Attempt>, sent: seq<Payload>, ghost responses: seq<Response?>)
    requires router.Valid() && |bs| == |decision.candidates|
    modifies decision, router.Sessions()
    ensures router.Valid()
    ensures |sent| == |responses| && AsksInOrder(forwarded, decision.candidates, sent)
    ensures |attempts| <= |bs| && Stopped(bs, last, |attempts|, responses)
    ensures last.Some? && last.value.Ready? ==>
      fresh(Objects(last.value.body)) && fresh(ResponseOf(last.value.body))
      && ReadyToRelay(bs, last.value.body, |attempts|, responses)
    ensures match Failover(decision.candidates, StreamVerdicts(bs))
      case Committed(a) => last.Some? && !last.value.Thrown? && attempts == a && Records(decision, a)
      case Escaped(a) => last.Some? && last.value.Thrown? && attempts == a && unchanged(decision)
      case Exhausted(a) => last.None? && attempts == a && decision.attempts == a && decision.selected == old(decision.selected)
    ensures forall i :: 0 <= i < |router.log| && router.log[i] == decision ==>
      router.View() ==
        if Failover(decision.candidates, StreamVerdicts(bs)).Committed? && |attempts| < |decision.candidates|
        then Step(router.candidates, router.maxSessions, old(router.View()), Finalize(i, decision.candidates[|attempts|]))
        else old(router.View())
  {
    last, attempts, sent, responses := TryCandidates(decision.candidates, bs, forwarded);
    Report(router, decision, last, attempts);
  }

  /** What the router and the decision hear when the loop has stopped. */
  method Report(router: DecisionRouter, decision: RouteDecision, last: Option<Try>, attempts: seq<Attempt>)
    requires router.Valid()
    requires last.Some? && !last.value.Thrown? ==> |attempts| < |decision.candidates|
    modifies decision, router.Sessions()
    ensures router.Valid()
    ensures last.None? ==> decision.attempts == attempts && decision.selected == old(decision.selected)
    ensures last.Some? && last.value.Thrown? ==> unchanged(decision)
    ensures last.Some? && !last.value.Thrown? ==> Records(decision, attempts)
    ensures forall i :: 0 <= i < |router.log| && router.log[i] == decision ==>
      router.View() ==
        if last.Some? && !last.value.Thrown?
        then Step(router.candidates, router.maxSessions, old(router.View()), Finalize(i, decision.candidates[|attempts|]))
        else old(router.View())
  {
    if last.None? {
      decision.attempts := attempts;
    } else if !last.value.Thrown? {
      router.Finalise(decision, decision.candidates[|attempts|], attempts);
    }
  }

  /** The decision says which candidate answered and which were passed over before. */
  ghost predicate Records(decision: RouteDecision, attempts: seq<Attempt>)
    reads decision
  {
    |attempts| < |decision.candidates| && decision.selected == decision.candidates[|attempts|] && decision.attempts == attempts
  }

  function Tail(attempts: seq<Attempt>, r: Result): Result {
    match r
    case Committed(a) => Committed(attempts + a)
    case Escaped(a) => Escaped(attempts + a)
    case Exhausted(a) => Exhausted(attempts + a)
  }

  // ---------------------------------------------------------------- the whole request

  /** Whether the answering candidate's response ends up released: the stream was
    * empty, or the client took a chunk, or it went away while an error body was
    * being waited for. */
  predicate Released(b: Behaviour, pulls: nat, cancel: bool)
    requires b.Answers?
  {
    (200 <= b.status <= 299 && b.chunks == []) || pulls >= 1 || (cancel && !(200 <= b.status <= 299))
  }

  /** A streaming request from the loop to the client's departure. The client gets
    * the chunks of the candidate that answered, or as many of them as it stayed for,
    * and nothing of any other. A response passed over stays open exactly if its
    * status was retryable, the answering one exactly if `Released` does not hold. */
  method StreamRequest(
    router: DecisionRouter, decision: RouteDecision, bs: seq<Behaviour>, forwarded: Payload, pulls: nat, cancel: bool)
    returns (delivered: seq<Bytes>, attempts: seq<Attempt>, sent: seq<Payload>, ghost responses: seq<Response?>)
    requires router.Valid() && |bs| == |decision.candidates|
    modifies decision, router.Sessions()
    ensures router.Valid()
    ensures StreamPassed(decision.candidates, bs, attempts)
    ensures attempts == Failover(decision.candidates, StreamVerdicts(bs)).attempts
    ensures |sent| == |responses| == |attempts| + (if |attempts| < |bs| then 1 else 0)
    ensures AsksInOrder(forwarded, decision.candidates, sent)
    ensures forall j :: 0 <= j < |attempts| ==> PassedOver(bs[j], responses[j])
    ensures forall i :: 0 <= i < |router.log| && router.log[i] == decision ==>
      router.View() ==
        if |attempts| < |decision.candidates| && !StreamRaises(bs[|attempts|])
        then Step(router.candidates, router.maxSessions, old(router.View()), Finalize(i, decision.candidates[|attempts|]))
        else old(router.View())
    ensures if |attempts| == |bs| then
        delivered == [] && decision.attempts == attempts && decision.selected == old(decision.selected)
      else if StreamRaises(bs[|attempts|]) then
        delivered == [] && unchanged(decision) && responses[|attempts|] != null && responses[|attempts|].closed
      else
        && !Refuses(bs[|attempts|].status) && Records(decision, attempts)
        && delivered == Taken(bs[|attempts|].chunks, pulls)
        && responses[|attempts|] != null && (responses[|attempts|].closed <==> Released(bs[|attempts|], pulls, cancel))
  {
    var last;
    last, attempts, sent, responses := StreamLoop(router, decision, bs, forwarded);
    StreamPassedIs(decision.candidates, bs);
    if |attempts| < |bs| { StreamVerdictIs(bs[|attempts|]); }
    delivered := Deliver(router, bs, last, |attempts|, responses, pulls, cancel);
  }

  /** What the client got and which responses are open when it has left. */
  ghost predicate ClientLeft(
    bs: seq<Behaviour>, last: Option<Try>, n: nat, responses: seq<Response?>, delivered: seq<Bytes>, pulls: nat, cancel: bool)
    reads responses
  {
    && Stopped(bs, last, n, responses)
    && (last.None? || last.value.Thrown? ==> delivered == [])
    && (last.Some? && !last.value.Thrown? ==>
         && delivered == Taken(bs[n].chunks, pulls)
         && (responses[n].closed <==> Released(bs[n], pulls, cancel)))
  }

  /** As many chunks as the client stayed for. */
  function Taken(chunks: seq<Bytes>, pulls: nat): seq<Bytes> {
    if pulls < |chunks| then chunks[..pulls] else chunks
  }

  /** Relaying what is ready leaves the router alone. */
  method Deliver(
    router: DecisionRouter, bs: seq<Behaviour>, last: Option<Try>, n: nat, ghost responses: seq<Response?>,
    pulls: nat, cancel: bool)
    returns (delivered: seq<Bytes>)
    requires router.Valid() && Stopped(bs, last, n, responses)
    requires last.Some? && last.value.Ready? ==> ReadyToRelay(bs, last.value.body, n, responses)
    modifies if last.Some? && last.value.Ready? then Objects(last.value.body) else {}
    modifies (if last.Some? && last.value.Ready? then {ResponseOf(last.value.body)} else {})`closed
    ensures router.Valid() && router.View() == old(router.View())
    ensures ClientLeft(bs, last, n, responses, delivered, pulls, cancel)
  {
    delivered := [];
    if last.Some? && last.value.Ready? {
      delivered := Serve(last.value.body, pulls, cancel);
      assert unchanged(router) && unchanged(router.Sessions()) && unchanged(router.log);
      router.Stays();
    }
  }
}
