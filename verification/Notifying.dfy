/** Acting on one delivery: claim it, tell the staff, and commit the claim with what it caused. */
module Notifying {
  import opened Outcome
  import opened Delivery

  datatype Person = Person(id: nat, name: string)

  /** How one person's notification ends: nowhere to write to, reached, out of reach, or an error that is
      worth another try. */
  datatype Reach = NoRecipient | Reached | Undeliverable | Failing

  datatype Notified = AlreadyHandled | Told(delivered: nat, skipped: nat)

  // ---- The staff -----------------------------------------------------------------------

  /** The people of a list, the later of two with one id. */
  function ById(people: seq<Person>): map<nat, Person> {
    if people == [] then map[] else ById(people[..|people| - 1])[people[|people| - 1].id := people[|people| - 1]]
  }

  function Everyone(roles: seq<seq<Person>>): seq<Person> {
    if roles == [] then [] else Everyone(roles[..|roles| - 1]) + roles[|roles| - 1]
  }

  lemma {:induction false} ByIdConcat(a: seq<Person>, b: seq<Person>)
    ensures ById(a + b) == ById(a) + ById(b)
  {
    if b == [] {
      assert a + b == a;
    } else {
      ByIdConcat(a, b[..|b| - 1]);
      assert (a + b)[..|a + b| - 1] == a + b[..|b| - 1];
    }
  }

  lemma {:induction false} ByIdHoldsEveryone(people: seq<Person>)
    ensures forall p :: p in people ==> p.id in ById(people)
    ensures forall id :: id in ById(people) ==> ById(people)[id] in people && ById(people)[id].id == id
  {
    if people != [] {
      ByIdHoldsEveryone(people[..|people| - 1]);
      assert people == people[..|people| - 1] + [people[|people| - 1]];
    }
  }

  lemma {:induction false} EveryoneIsInARole(roles: seq<seq<Person>>)
    ensures forall p :: p in Everyone(roles) <==> exists i :: 0 <= i < |roles| && p in roles[i]
  {
    if roles != [] {
      var last := |roles| - 1;
      EveryoneIsInARole(roles[..last]);
      forall p ensures p in Everyone(roles) <==> exists i :: 0 <= i < |roles| && p in roles[i] {
        if i :| 0 <= i < |roles| && p in roles[i] {
          if i < last { assert p in roles[..last][i]; }
        }
        if p in Everyone(roles[..last]) {
          var i :| 0 <= i < |roles[..last]| && p in roles[..last][i];
          assert p in roles[i];
        }
      }
    }
  }

  /** Everyone in a role that works orders, each of them once. */
  method Staff(roles: seq<seq<Person>>) returns (found: map<nat, Person>)
    ensures forall i, p :: 0 <= i < |roles| && p in roles[i] ==> p.id in found
    ensures forall id :: id in found ==> found[id].id == id && exists i :: 0 <= i < |roles| && found[id] in roles[i]
  {
    found := map[];
    var i := 0;
    assert roles[..0] == [];
    while i < |roles|
      invariant 0 <= i <= |roles|
      invariant found == ById(Everyone(roles[..i]))
    {
      ByIdConcat(Everyone(roles[..i]), roles[i]);
      assert roles[..i + 1][..i] == roles[..i];
      found, i := found + ById(roles[i]), i + 1;
    }
    assert roles[..|roles|] == roles;
    ByIdHoldsEveryone(Everyone(roles));
    EveryoneIsInARole(roles);
  }

  // ---- The dispatcher ---------------------------------------------------------------------

  function Count(reaches: seq<Reach>, reach: Reach): nat {
    if reaches == [] then 0 else (if reaches[0] == reach then 1 else 0) + Count(reaches[1..], reach)
  }

  lemma {:induction false} CountIsBounded(reaches: seq<Reach>, reach: Reach)
    ensures Count(reaches, reach) <= |reaches|
  {
    if reaches != [] {
      CountIsBounded(reaches[1..], reach);
    }
  }

  lemma {:induction false} CountIsMultiplicity(reaches: seq<Reach>, reach: Reach)
    ensures Count(reaches, reach) == multiset(reaches)[reach]
  {
    if reaches != [] {
      CountIsMultiplicity(reaches[1..], reach);
      assert reaches == [reaches[0]] + reaches[1..];
      assert multiset(reaches) == multiset{reaches[0]} + multiset(reaches[1..]);
    }
  }

  /** Without an error, delivered are those reached, and skipped those with nowhere to write to and those out
      of reach. */
  lemma WhoIsCounted(reaches: seq<Reach>)
    ensures DispatchToAll(reaches).Err? <==> Failing in reaches
    ensures DispatchToAll(reaches).Ok? ==>
              var (told, m) := (DispatchToAll(reaches).value, multiset(reaches));
              told == Told(m[Reached], m[NoRecipient] + m[Undeliverable])
  {
    CountIsMultiplicity(reaches, Reached);
    FourKinds(reaches);
  }

  lemma {:induction false} CountsAddUp(reaches: seq<Reach>)
    ensures |reaches| == Count(reaches, NoRecipient) + Count(reaches, Reached) + Count(reaches, Undeliverable)
                         + Count(reaches, Failing)
  {
    if reaches != [] {
      CountsAddUp(reaches[1..]);
    }
  }

  lemma FourKinds(reaches: seq<Reach>)
    ensures var m := multiset(reaches);
            |reaches| == m[NoRecipient] + m[Reached] + m[Undeliverable] + m[Failing]
  {
    CountsAddUp(reaches);
    CountIsMultiplicity(reaches, NoRecipient);
    CountIsMultiplicity(reaches, Reached);
    CountIsMultiplicity(reaches, Undeliverable);
    CountIsMultiplicity(reaches, Failing);
  }

  /** Writes to everyone; somebody out of reach is skipped, an error abandons the whole. */
  function DispatchToAll(reaches: seq<Reach>): Result<Notified> {
    if Failing in reaches then Err(RepoFailure)
    else
      CountIsBounded(reaches, Reached);
      Ok(Told(Count(reaches, Reached), |reaches| - Count(reaches, Reached)))
  }

  // ---- The handler in its transaction --------------------------------------------------------

  class Inbox {
    var committed: set<MessageId>
    var pending: set<MessageId>

    constructor (rows: set<MessageId>)
      ensures committed == rows && pending == {}
    {
      committed, pending := rows, {};
    }

    /** One insert inside a savepoint: a clash with the key writes nothing and leaves the transaction usable. */
    method Claim(id: MessageId) returns (claimed: bool)
      modifies this
      ensures claimed <==> id !in old(committed) && id !in old(pending)
      ensures committed == old(committed) && pending == old(pending) + if claimed then {id} else {}
    {
      claimed := id !in committed && id !in pending;
      if claimed {
        pending := pending + {id};
      }
    }

    method Handle(id: MessageId, orderExists: bool, reaches: seq<Reach>) returns (r: Result<Notified>)
      requires pending == {}
      modifies this
      ensures committed == old(committed) && pending == if id in old(committed) then {} else {id}
      ensures id in old(committed) ==> r == Ok(AlreadyHandled)
      ensures id !in old(committed) ==> r == if orderExists then DispatchToAll(reaches) else Ok(Told(0, 0))
    {
      var claimed := Claim(id);
      if !claimed {
        return Ok(AlreadyHandled);
      }
      if !orderExists {
        return Ok(Told(0, 0));
      }
      r := DispatchToAll(reaches);
    }

    /** The claim is committed exactly when the handling it stands for went through. */
    method Consume(id: MessageId, orderExists: bool, reaches: seq<Reach>) returns (r: Result<Notified>)
      requires pending == {}
      modifies this
      ensures pending == {}
      ensures r == Ok(AlreadyHandled) <==> id in old(committed)
      ensures r.Err? <==> id !in old(committed) && orderExists && Failing in reaches
      ensures committed == old(committed) + if r.Ok? then {id} else {}
      ensures r.Ok? && r.value.Told? ==>
                if orderExists then
                  && r.value.delivered == multiset(reaches)[Reached]
                  && r.value.skipped == multiset(reaches)[NoRecipient] + multiset(reaches)[Undeliverable]
                  && r.value.delivered + r.value.skipped == |reaches|
                else r.value.delivered == 0 && r.value.skipped == 0
    {
      WhoIsCounted(reaches);
      FourKinds(reaches);
      r := Handle(id, orderExists, reaches);
      if r.Ok? {
        committed := committed + pending;
      }
      pending := {};
    }
  }

  // ---- A handling is a run of the delivery system ----------------------------------------------

  /** What a consumer does with the message it holds, given how its handling ends. */
  function Steps(s: State, c: WorkerId, ends: Result<Notified>): seq<Action> {
    if ends.Err? then [Claim(c), PutBack(c)]
    else if ends.value.AlreadyHandled? then [Claim(c), CommitConsumer(c), Acknowledge(c)]
    else [Claim(c), Work(c), CommitConsumer(c), Acknowledge(c)]
  }

  lemma One(s: State, a: Action)
    requires Enabled(s, a)
    ensures Possible(s, [a]) && After(s, [a]) == Next(s, a)
  {
    hide Enabled, Next;
    var end := Next(s, a);
    assert [a][1..] == [] && Possible(end, []) && After(end, []) == end;
  }

  lemma Three(s: State, a: Action, b: Action, c: Action)
    requires Enabled(s, a) && Enabled(Next(s, a), b) && Enabled(Next(Next(s, a), b), c)
    ensures Possible(s, [a, b]) && After(s, [a, b]) == Next(Next(s, a), b)
    ensures Possible(s, [a, b, c]) && After(s, [a, b, c]) == Next(Next(Next(s, a), b), c)
  {
    hide Enabled, Next;
    var second, third := Next(s, a), Next(Next(s, a), b);
    One(second, b);
    One(third, c);
    assert [a, b][1..] == [b] && [a, b, c][1..] == [b, c] && [b, c][1..] == [c];
  }

  /** A delivery that was handled before is acknowledged and changes nothing else; one that fails goes back
      to its queue with the inbox as it was. */
  lemma RefusedHandlingIsARun(s: State, c: WorkerId, ends: Result<Notified>)
    requires Enabled(s, Claim(c))
    requires ends.Ok? ==> ends.value.AlreadyHandled? && KeyOf(s.consumers[c].copy) in s.inbox
    ensures Possible(s, Steps(s, c, ends))
    ensures var t := After(s, Steps(s, c, ends));
            && t.inbox == s.inbox && t.handled == s.handled && t.outbox == s.outbox
            && t.consumers.Keys == s.consumers.Keys - {c}
            && t.queued == s.queued + if ends.Err? then multiset{s.consumers[c].copy} else multiset{}
  {
    if ends.Err? {
      Three(s, Claim(c), PutBack(c), CommitCommand(map[]));
    } else {
      Three(s, Claim(c), CommitConsumer(c), Acknowledge(c));
    }
  }

  /** A delivery that is handled leaves its key in the inbox and is gone from the broker. */
  lemma CommittedHandlingIsARun(s: State, c: WorkerId, ends: Result<Notified>)
    requires Enabled(s, Claim(c)) && KeyOf(s.consumers[c].copy) !in s.inbox && ends.Ok? && ends.value.Told?
    ensures Possible(s, Steps(s, c, ends))
    ensures var t := After(s, Steps(s, c, ends));
            var key := KeyOf(s.consumers[c].copy);
            && t.inbox == s.inbox + {key} && t.handled == s.handled + multiset{key} && t.outbox == s.outbox
            && t.consumers.Keys == s.consumers.Keys - {c} && t.queued == s.queued
  {
    var claimed := Next(s, Claim(c));
    var run := Steps(s, c, ends);
    Three(claimed, Work(c), CommitConsumer(c), Acknowledge(c));
    assert run[1..] == [Work(c), CommitConsumer(c), Acknowledge(c)];
  }
}
