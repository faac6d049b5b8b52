/** The router object: a bounded session table and a bounded list of decisions
  * that share mutable decision objects.
  */
module DecisionRouting {
  import opened Options
  import opened Routing
  import opened SessionHistory
  import opened RouterModel

  class RouteDecision {
    var selected: Candidate
    var attempts: seq<Attempt>
    const candidates: seq<Candidate>
    const requested: Tier
    const filtered: map<string, seq<Reason>>
    const pinned: Option<Pin>

    constructor (candidates: seq<Candidate>, requested: Tier, filtered: map<string, seq<Reason>>, pinned: Option<Pin>)
      requires candidates != []
      ensures this.selected == candidates[0] && this.attempts == []
      ensures this.candidates == candidates && this.requested == requested
      ensures this.filtered == filtered && this.pinned == pinned
    {
      this.selected, this.attempts := candidates[0], [];
      this.candidates, this.requested, this.filtered, this.pinned := candidates, requested, filtered, pinned;
    }
  }

  class SessionRoute {
    var candidateId: string
    const decision: RouteDecision

    constructor (candidateId: string, decision: RouteDecision)
      ensures this.candidateId == candidateId && this.decision == decision
    {
      this.candidateId, this.decision := candidateId, decision;
    }
  }

  lemma TrimStep<T>(s: seq<T>, x: T, n: nat)
    requires n >= 1
    ensures Trim(Trim(s, n) + [x], n) == Trim(s + [x], n)
  {
  }

  lemma TrimRest<T>(s: seq<T>, n: nat)
    requires |s| > n
    ensures Trim(s[1..], n) == Trim(s, n)
  {
  }

  lemma WithoutOldest(keys: seq<Key>)
    requires keys != [] && Distinct(keys)
    ensures Distinct(keys[1..]) && Keys(keys[1..]) == Keys(keys) - {keys[0]}
  {
    assert keys == [keys[0]] + keys[1..];
    assert keys[0] !in keys[1..];
  }

  class DecisionRouter {
    const candidates: seq<Candidate>
    const maxSessions: nat
    const maxDecisions: nat

    /** The ordered dictionary: its keys, oldest first, and its entries. */
    var keys: seq<Key>
    var table: map<Key, SessionRoute>
    var decisions: seq<RouteDecision>

    /** Every successful route so far. */
    ghost var routed: seq<Key>
    ghost var log: seq<RouteDecision>

    /** Where in the log each session's latest decision is. */
    ghost var latest: map<Key, nat>

    ghost function Sessions(): set<SessionRoute>
      reads this
    {
      set k <- table :: table[k]
    }

    /** The entry is about its session's latest decision. */
    ghost predicate Points(k: Key)
      requires k in table
      reads this
    {
      k in latest && latest[k] < |log| && table[k].decision == log[latest[k]]
    }

    /** The entry carries its decision's current candidate. */
    ghost predicate Agrees(k: Key)
      requires k in table
      reads this, table[k], table[k].decision
    {
      table[k].candidateId == table[k].decision.selected.id
    }

    ghost predicate LogOk()
      reads this
    {
      && |log| == |routed| && Distinct(log)
      && latest == Latest(routed)
      && decisions == Trim(log, maxDecisions)
    }

    ghost predicate KeysOk()
      reads this
    {
      keys == Remembered(routed, maxSessions) && table.Keys == Keys(keys)
    }

    ghost predicate Valid()
      reads this, Sessions(), log
    {
      && maxSessions >= 1 && maxDecisions >= 1 && UniqueIds(candidates)
      && LogOk() && KeysOk()
      && (forall k <- table :: Points(k))
      && (forall k <- table :: Agrees(k))
    }

    ghost function View(): (h: History)
      reads this, log
      ensures h.routed == routed && |h.selected| == |log|
    {
      var l := log;
      History(routed, seq(|l|, i requires 0 <= i < |l| reads l => l[i].selected.id))
    }

    /** What happens elsewhere does not concern the router. */
    twostate lemma Stays()
      requires old(Valid()) && unchanged(this) && unchanged(Sessions()) && unchanged(log)
      ensures Valid() && View() == old(View())
    {
      assert forall k <- table :: old(Points(k)) && old(Agrees(k));
      assert forall k <- table :: table[k].decision in log;
    }

    constructor Init(candidates: seq<Candidate>, maxSessions: int, maxDecisions: int)
      requires UniqueIds(candidates)
      ensures Valid() && fresh(this) && routed == [] && log == [] && table == map[]
      ensures this.candidates == candidates
      ensures this.maxSessions == (if maxSessions > 1 then maxSessions else 1)
      ensures this.maxDecisions == (if maxDecisions > 1 then maxDecisions else 1)
    {
      this.candidates := candidates;
      this.maxSessions := if maxSessions > 1 then maxSessions else 1;
      this.maxDecisions := if maxDecisions > 1 then maxDecisions else 1;
      keys, table, decisions, routed, log, latest := [], map[], [], [], [], map[];
    }

    /** A router is made for any candidates but none at all. */
    static method Create(candidates: seq<Candidate>, maxSessions: int, maxDecisions: int)
      returns (r: Option<DecisionRouter>)
      requires UniqueIds(candidates)
      ensures r.None? <==> candidates == []
      ensures r.Some? ==> fresh(r.value) && r.value.Valid() && r.value.candidates == candidates
      ensures r.Some? ==> r.value.View() == History([], []) && r.value.table == map[]
      ensures r.Some? ==> r.value.maxSessions >= 1 && (maxSessions >= 1 ==> r.value.maxSessions == maxSessions)
      ensures r.Some? ==> r.value.maxDecisions >= 1 && (maxDecisions >= 1 ==> r.value.maxDecisions == maxDecisions)
    {
      if candidates == [] {
        return None;
      }
      var router := new DecisionRouter.Init(candidates, maxSessions, maxDecisions);
      return Some(router);
    }

    lemma EntryIsSettled(k: Key)
      requires Valid()
      ensures Settled(View(), maxSessions, k) == if k in table then Some(table[k].candidateId) else None
    {
      LatestIs(routed, k);
      if k in table { assert Points(k) && Agrees(k); } else { assert k !in keys; }
    }

    /** No two sessions share a decision object. */
    lemma OneSessionPerDecision(k: Key, l: Key)
      requires Valid() && k in table && l in table && k != l
      ensures table[k].decision != table[l].decision && table[k] != table[l]
    {
      assert Points(k) && Points(l);
      PointApart(k, l);
    }

    lemma PointApart(k: Key, l: Key)
      requires LogOk() && k in table && l in table && k != l && Points(k) && Points(l)
      ensures table[k].decision != table[l].decision
    {
      LatestIs(routed, k);
      LatestIs(routed, l);
    }

    /** Drop the oldest entries beyond the bound. */
    method Evict(key: Key)
      requires table.Keys == Keys(keys) && Distinct(keys) && maxSessions >= 1
      modifies this`keys, this`table
      ensures keys == Trim(old(keys), maxSessions)
      ensures table.Keys == Keys(keys) && forall k <- table :: k in old(table) && table[k] == old(table)[k]
    {
      ghost var touched := keys;
      ghost var before := table;
      while |keys| > maxSessions
        invariant Trim(keys, maxSessions) == Trim(touched, maxSessions)
        invariant Distinct(keys) && table.Keys == Keys(keys)
        invariant forall k <- table :: k in before && table[k] == before[k]
      {
        WithoutOldest(keys);
        TrimRest(keys, maxSessions);
        table := table - {keys[0]};
        keys := keys[1..];
      }
    }

    /** The table half of remembering a decision. */
    method Insert(key: Key, entry: SessionRoute)
      requires KeysOk() && maxSessions >= 1
      modifies this`keys, this`table
      ensures keys == Remembered(routed + [key], maxSessions) && table.Keys == Keys(keys)
      ensures forall k <- table :: if k == key then table[k] == entry else k in old(table) && table[k] == old(table)[k]
    {
      RememberOneMore(routed, maxSessions, key);
      RememberedDistinct(routed, maxSessions);
      TouchDistinct(keys, key);
      TouchKeys(keys, key);
      table := table[key := entry];
      keys := Touch(keys, key);
      Evict(key);
    }

    /** The list half: `deque.append` under its bound. */
    method Append(key: Key, decision: RouteDecision)
      requires LogOk() && decision !in log && maxDecisions >= 1
      modifies this`decisions, this`routed, this`log, this`latest
      ensures LogOk()
      ensures routed == old(routed) + [key] && log == old(log) + [decision]
      ensures latest == old(latest)[key := |old(log)|]
    {
      LatestOneMore(routed, key);
      TrimStep(log, decision, maxDecisions);
      decisions := Trim(decisions + [decision], maxDecisions);
      latest := latest[key := |log|];
      routed, log := routed + [key], log + [decision];
    }

    method Remember(key: Key, decision: RouteDecision)
      requires Valid() && decision !in log
      modifies this
      ensures Valid()
      ensures routed == old(routed) + [key] && log == old(log) + [decision]
    {
      var entry := new SessionRoute(decision.selected.id, decision);
      Insert(key, entry);
      Append(key, decision);
    }

    /** The order to try candidates in, with a pin from the table in front if one applies. */
    method Order(eligible: seq<Candidate>, requested: Tier, body: Body, key: Key, mode: Mode)
      returns (order: seq<Candidate>, pinned: Option<Pin>)
      requires Valid() && eligible == Eligible(candidates, body) && eligible != []
      requires requested == RequestedTier(mode, body)
      ensures Chosen(order, pinned) == Choose(candidates, body, mode, if key in table then Some(table[key].candidateId) else None)
    {
      order, pinned := Ordered(eligible, requested), None;
      var toolLoop := !body.latestFromUser;
      if key in table && (toolLoop || mode.Session?) {
        var candidate := FirstWithId(eligible, table[key].candidateId);
        if candidate.Some? {
          order := [candidate.value] + WithoutId(order, candidate.value.id);
          pinned := Some(if toolLoop then ToolLoop else SessionMode);
        }
      }
    }

    /** Everything `route` works out before it changes anything. */
    method Pick(body: Body, key: Key, mode: Mode)
      returns (choice: Choice, requested: Tier, filtered: map<string, seq<Reason>>)
      requires Valid()
      ensures choice == Choose(candidates, body, mode, Settled(View(), maxSessions, key))
      ensures choice.Chosen? ==> choice.order != []
      ensures Asks(mode, body, requested) && ListsTheRest(filtered, candidates, body)
    {
      EntryIsSettled(key);
      ChoiceIsComplete(candidates, body, mode, Settled(View(), maxSessions, key));
      var eligible;
      eligible, filtered := EligibleCandidates(candidates, body);
      requested := RequestedTier(mode, body);
      RequestedTierIs(mode, body);
      if eligible == [] {
        choice := NoneEligible;
      } else {
        var order, pinned := Order(eligible, requested, body, key, mode);
        choice := Chosen(order, pinned);
      }
    }

    /** Decide for the first of `order` and remember the decision. */
    method Decide(order: seq<Candidate>, requested: Tier, filtered: map<string, seq<Reason>>, pinned: Option<Pin>, key: Key)
      returns (decision: RouteDecision)
      requires Valid() && order != []
      modifies this
      ensures Valid() && fresh(decision)
      ensures decision.candidates == order && decision.pinned == pinned
      ensures decision.requested == requested && decision.filtered == filtered
      ensures decision.selected == order[0] && decision.attempts == []
      ensures log == old(log) + [decision] && routed == old(routed) + [key]
      ensures View() == History(old(View()).routed + [key], old(View()).selected + [order[0].id])
    {
      decision := new RouteDecision(order, requested, filtered, pinned);
      Remember(key, decision);
    }

    /** Route one request. The table, the decision list and every decision made so
      * far stand afterwards where the model says, and a refusal changes nothing. */
    method Route(body: Body, key: Key, mode: Mode) returns (r: Option<RouteDecision>)
      requires Valid()
      modifies this
      ensures Valid()
      ensures View() == Step(candidates, maxSessions, old(View()), Request(key, body, mode))
      ensures r.None? ==> unchanged(this)
      ensures r.Some? ==> fresh(r.value) && log == old(log) + [r.value] && routed == old(routed) + [key]
      ensures match Choose(candidates, body, mode, old(Settled(View(), maxSessions, key)))
        case NoneEligible => r.None?
        case Chosen(order, pinned) =>
          r.Some? && r.value.candidates == order && r.value.pinned == pinned
          && order != [] && r.value.selected == order[0] && r.value.attempts == []
          && Asks(mode, body, r.value.requested) && ListsTheRest(r.value.filtered, candidates, body)
    {
      var choice, requested, filtered := Pick(body, key, mode);
      if choice.NoneEligible? {
        return None;
      }
      RequestAppends(candidates, maxSessions, View(), key, body, mode, choice.order, choice.pinned);
      var decision := Decide(choice.order, requested, filtered, choice.pinned, key);
      return Some(decision);
    }

    /** Walk the table for the entry about `decision` and repoint it. */
    method Repin(decision: RouteDecision, id: string)
      requires table.Keys == Keys(keys)
      requires forall k, l :: k in table && l in table && k != l ==> table[k].decision != table[l].decision
      modifies Sessions()
      ensures forall k <- table ::
        table[k].candidateId == if table[k].decision == decision then id else old(table[k].candidateId)
    {
      var i := 0;
      while i < |keys|
        invariant i <= |keys|
        invariant forall j :: 0 <= j < i ==> table[keys[j]].decision != decision
        invariant unchanged(Sessions())
      {
        if table[keys[i]].decision == decision {
          table[keys[i]].candidateId := id;
          break;
        }
        i := i + 1;
      }
    }

    /** The table half of finalising: entries agree with their decisions again. */
    method Realign(decision: RouteDecision)
      requires LogOk() && KeysOk() && forall k <- table :: Points(k)
      requires forall k <- table :: table[k].decision != decision ==> Agrees(k)
      modifies Sessions()
      ensures LogOk() && KeysOk()
      ensures forall k <- table :: Points(k)
      ensures forall k <- table :: Agrees(k)
      ensures forall k <- table :: table[k].decision != decision ==> table[k].candidateId == old(table[k].candidateId)
    {
      forall k, l | k in table && l in table && k != l ensures table[k].decision != table[l].decision {
        PointApart(k, l);
      }
      Repin(decision, decision.selected.id);
    }

    /** The decision half of finalising. */
    method Settle(decision: RouteDecision, selected: Candidate, attempts: seq<Attempt>)
      requires Distinct(log)
      modifies decision
      ensures decision.selected == selected && decision.attempts == attempts
      ensures View().routed == old(View()).routed
      ensures forall i :: 0 <= i < |log| && log[i] == decision ==> View().selected == old(View()).selected[i := selected.id]
      ensures decision !in log ==> View() == old(View())
    {
      ghost var was := View().selected;
      decision.selected := selected;
      decision.attempts := attempts;
      forall x | 0 <= x < |log| && log[x] == decision ensures View().selected == was[x := selected.id] {}
    }

    /** Record the candidate a decision ended on. Only that decision and the entry
      * whose latest decision it is change. */
    method Finalise(decision: RouteDecision, selected: Candidate, attempts: seq<Attempt>)
      requires Valid()
      modifies decision, Sessions()
      ensures Valid()
      ensures decision.selected == selected && decision.attempts == attempts
      ensures forall i :: 0 <= i < |log| && log[i] == decision ==>
        View() == Step(candidates, maxSessions, old(View()), Finalize(i, selected))
      ensures decision !in log ==> View() == old(View())
      ensures forall k <- table :: table[k].decision != decision ==> table[k].candidateId == old(table[k].candidateId)
    {
      Settle(decision, selected, attempts);
      Realign(decision);
    }
  }
}
