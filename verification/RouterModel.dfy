/** The router's decisions as a function of the events so far: which sessions
  * were routed in which order, and on which candidate each decision stands.
  */
module RouterModel {
  import opened Options
  import opened Routing
  import opened SessionHistory

  /** Entry `i` of both: the `i`-th decision's session, and its current candidate. */
  datatype History = History(routed: seq<Key>, selected: seq<string>)

  datatype Event =
    | Request(key: Key, body: Body, mode: Mode)
    | Finalize(decision: nat, candidate: Candidate)

  ghost predicate Wellformed(h: History) {
    |h.routed| == |h.selected|
  }

  /** The candidate a session still remembered last settled on. */
  function Settled(h: History, n: nat, key: Key): Option<string>
    requires Wellformed(h)
  {
    if key in h.routed && key in Remembered(h.routed, n) then Some(h.selected[LastIndex(h.routed, key)]) else None
  }

  function Step(cs: seq<Candidate>, n: nat, h: History, e: Event): (h': History)
    requires Wellformed(h)
    ensures Wellformed(h')
  {
    match e
    case Request(key, body, mode) =>
      (match Choose(cs, body, mode, Settled(h, n, key))
       case NoneEligible => h
       case Chosen(order, _) =>
         if order == [] then h else History(h.routed + [key], h.selected + [order[0].id]))
    case Finalize(i, c) => if i < |h.selected| then h.(selected := h.selected[i := c.id]) else h
  }

  lemma RequestAppends(
    cs: seq<Candidate>, n: nat, h: History, key: Key, body: Body, mode: Mode, order: seq<Candidate>, pinned: Option<Pin>)
    requires Wellformed(h) && order != []
    requires Choose(cs, body, mode, Settled(h, n, key)) == Chosen(order, pinned)
    ensures Step(cs, n, h, Request(key, body, mode)) == History(h.routed + [key], h.selected + [order[0].id])
  {
  }

  // ---------------------------------------------------------------- stickiness over runs

  function Replay(cs: seq<Candidate>, n: nat, h: History, es: seq<Event>): (h': History)
    requires Wellformed(h)
    ensures Wellformed(h')
    decreases |es|
  {
    if es == [] then h else Replay(cs, n, Step(cs, n, h, es[0]), es[1..])
  }

  /** The first choice made for `key` by one event, if it routes `key`. */
  function FirstChoice(cs: seq<Candidate>, n: nat, h: History, e: Event, key: Key): seq<string>
    requires Wellformed(h)
  {
    if e.Finalize? || e.key != key then []
    else match Choose(cs, e.body, e.mode, Settled(h, n, key))
      case NoneEligible => []
      case Chosen(order, _) => if order == [] then [] else [order[0].id]
  }

  /** The first choices made for `key` along a run. */
  function FirstChoices(cs: seq<Candidate>, n: nat, h: History, es: seq<Event>, key: Key): seq<string>
    requires Wellformed(h)
    decreases |es|
  {
    if es == [] then []
    else FirstChoice(cs, n, h, es[0], key) + FirstChoices(cs, n, Step(cs, n, h, es[0]), es[1..], key)
  }

  /** The event stays within one tool loop of `key` on the candidate `id`: a request
    * of it follows fewer than `n` other sessions, does not end with a user message
    * and still may use the candidate; its current decision is not finalised on
    * another one. */
  ghost predicate InToolLoop(cs: seq<Candidate>, n: nat, h: History, e: Event, key: Key, id: string)
    requires Wellformed(h)
  {
    match e
    case Request(k, body, _) =>
      k == key ==>
        && key in h.routed && |Keys(h.routed[LastIndex(h.routed, key) + 1..])| < n
        && !body.latestFromUser && (exists c <- cs :: c.id == id && Takes(c, body))
    case Finalize(i, c) => key in h.routed && i == LastIndex(h.routed, key) ==> c.id == id
  }

  ghost predicate ToolLoopRun(cs: seq<Candidate>, n: nat, h: History, es: seq<Event>, key: Key, id: string)
    requires Wellformed(h)
    decreases |es|
  {
    es != [] ==> InToolLoop(cs, n, h, es[0], key, id) && ToolLoopRun(cs, n, Step(cs, n, h, es[0]), es[1..], key, id)
  }

  ghost predicate On(h: History, key: Key, id: string)
    requires Wellformed(h)
  {
    key in h.routed && h.selected[LastIndex(h.routed, key)] == id
  }

  lemma LastIndexGrows(routed: seq<Key>, k: Key, key: Key)
    ensures key in routed && k != key ==> LastIndex(routed + [k], key) == LastIndex(routed, key)
    ensures LastIndex(routed + [k], k) == |routed|
  {
    assert (routed + [k])[..|routed|] == routed;
  }

  lemma OnIsSettled(h: History, n: nat, key: Key, id: string)
    requires Wellformed(h) && On(h, key, id) && n >= 1
    requires |Keys(h.routed[LastIndex(h.routed, key) + 1..])| < n
    ensures Settled(h, n, key) == Some(id)
  {
    RememberedIff(h.routed, n, key);
  }

  /** What a request for `key` adds while its tool loop goes on. */
  lemma RequestStaysOn(cs: seq<Candidate>, n: nat, h: History, key: Key, body: Body, mode: Mode, id: string)
    requires Wellformed(h) && On(h, key, id) && UniqueIds(cs) && n >= 1
    requires |Keys(h.routed[LastIndex(h.routed, key) + 1..])| < n
    requires !body.latestFromUser && exists c <- cs :: c.id == id && Takes(c, body)
    ensures Choose(cs, body, mode, Settled(h, n, key)).Chosen?
    ensures Choose(cs, body, mode, Settled(h, n, key)).order != []
    ensures Choose(cs, body, mode, Settled(h, n, key)).order[0].id == id
    ensures On(Step(cs, n, h, Request(key, body, mode)), key, id)
  {
    OnIsSettled(h, n, key, id);
    PinComesFirst(cs, body, mode, id);
    var order := Choose(cs, body, mode, Some(id)).order;
    var after := Step(cs, n, h, Request(key, body, mode));
    assert after == History(h.routed + [key], h.selected + [id]);
    LastIndexGrows(h.routed, key, key);
  }

  lemma OtherStaysOn(cs: seq<Candidate>, n: nat, h: History, e: Event, key: Key, id: string)
    requires Wellformed(h) && On(h, key, id) && (e.Request? ==> e.key != key)
    requires e.Finalize? && e.decision == LastIndex(h.routed, key) ==> e.candidate.id == id
    ensures On(Step(cs, n, h, e), key, id)
  {
    if e.Request? { LastIndexGrows(h.routed, e.key, key); }
  }

  lemma StaysOn(cs: seq<Candidate>, n: nat, h: History, e: Event, key: Key, id: string)
    requires Wellformed(h) && On(h, key, id) && UniqueIds(cs) && n >= 1
    requires InToolLoop(cs, n, h, e, key, id)
    ensures On(Step(cs, n, h, e), key, id)
    ensures FirstChoice(cs, n, h, e, key) == if e.Request? && e.key == key then [id] else []
  {
    if e.Request? && e.key == key {
      RequestStaysOn(cs, n, h, key, e.body, e.mode, id);
    } else {
      OtherStaysOn(cs, n, h, e, key, id);
    }
  }

  function CountRequests(es: seq<Event>, key: Key): nat {
    if es == [] then 0 else (if es[0].Request? && es[0].key == key then 1 else 0) + CountRequests(es[1..], key)
  }

  function Repeat(id: string, n: nat): seq<string> {
    seq(n, _ => id)
  }

  /** Throughout a tool loop every request of the session is answered with the
    * candidate it last settled on, and it stays settled there. */
  lemma {:induction false} ToolLoopSticks(cs: seq<Candidate>, n: nat, h: History, es: seq<Event>, key: Key, id: string)
    requires Wellformed(h) && On(h, key, id) && UniqueIds(cs) && n >= 1
    requires ToolLoopRun(cs, n, h, es, key, id)
    ensures On(Replay(cs, n, h, es), key, id)
    ensures FirstChoices(cs, n, h, es, key) == Repeat(id, CountRequests(es, key))
    decreases |es|
  {
    if es != [] {
      StaysOn(cs, n, h, es[0], key, id);
      ToolLoopSticks(cs, n, Step(cs, n, h, es[0]), es[1..], key, id);
    }
  }

  /** A session not routed in between is forgotten exactly when `n` or more others
    * were; then its next request is routed as if it were new. */
  lemma ForgottenIff(cs: seq<Candidate>, n: nat, h: History, key: Key)
    requires Wellformed(h) && n >= 1
    ensures Settled(h, n, key).None?
       <==> key !in h.routed || |Keys(h.routed[LastIndex(h.routed, key) + 1..])| >= n
  {
    RememberedIff(h.routed, n, key);
  }
}
