/** The chain a command runs through: a transaction around the draining of its events around its handler. */
module Pipelines {
  import opened Events

  /** Application errors are caught by the transaction; anything else leaves the request where it stands. */
  datatype Failure = NoFailure | AppError | Crash

  datatype Answer<S> = Answer(session: S, failure: Failure)

  type Handler<!S> = S -> Answer<S>
  type Pipeline<!S> = Handler<S> -> Handler<S>

  /** The first pipeline outermost. */
  function Nest<S>(pipelines: seq<Pipeline<S>>, handler: Handler<S>): Handler<S> {
    if pipelines == [] then handler else pipelines[0](Nest(pipelines[1..], handler))
  }

  method BuildPipelineHandlers<S>(handler: Handler<S>, pipelines: seq<Pipeline<S>>) returns (handleNext: Handler<S>)
    ensures handleNext == Nest(pipelines, handler)
  {
    handleNext := handler;
    var i := |pipelines|;
    while i > 0
      invariant 0 <= i <= |pipelines|
      invariant handleNext == Nest(pipelines[i..], handler)
    {
      i := i - 1;
      assert pipelines[i..][0] == pipelines[i] && pipelines[i..][1..] == pipelines[i + 1..];
      handleNext := pipelines[i](handleNext);
    }
    assert pipelines[0..] == pipelines;
  }

  // ---- Registration order is execution order ---------------------------------------------

  datatype Mark = Enter(pipeline: nat) | Leave(pipeline: nat) | Note(text: string)

  function Tracer(n: nat): Pipeline<seq<Mark>> {
    (next: Handler<seq<Mark>>) => (log: seq<Mark>) =>
      var answer := next(log + [Enter(n)]);
      Answer(answer.session + [Leave(n)], answer.failure)
  }

  function Tracers(first: nat, count: nat): seq<Pipeline<seq<Mark>>>
    decreases count
  {
    if count == 0 then [] else [Tracer(first)] + Tracers(first + 1, count - 1)
  }

  function Entering(first: nat, count: nat): seq<Mark>
    decreases count
  {
    if count == 0 then [] else [Enter(first)] + Entering(first + 1, count - 1)
  }

  function Leaving(first: nat, count: nat): seq<Mark>
    decreases count
  {
    if count == 0 then [] else Leaving(first + 1, count - 1) + [Leave(first)]
  }

  lemma OneMoreTracer(first: nat, count: nat, handler: Handler<seq<Mark>>, log: seq<Mark>)
    requires count > 0
    ensures var inner := Nest(Tracers(first + 1, count - 1), handler)(log + [Enter(first)]);
            Nest(Tracers(first, count), handler)(log) == Answer(inner.session + [Leave(first)], inner.failure)
  {
    var tracers := Tracers(first, count);
    assert tracers[0] == Tracer(first) && tracers[1..] == Tracers(first + 1, count - 1);
    assert Nest(tracers, handler) == Tracer(first)(Nest(tracers[1..], handler));
  }

  /** Around any handler, whichever way it ends, pipelines are entered in the order they are registered in and
      left in the opposite one, and its failure passes through all of them. */
  lemma {:induction false} FirstIsOutermost(first: nat, count: nat, handler: Handler<seq<Mark>>, log: seq<Mark>)
    ensures var (all, handled) := (Nest(Tracers(first, count), handler)(log), handler(log + Entering(first, count)));
            all.session == handled.session + Leaving(first, count) && all.failure == handled.failure
    decreases count
  {
    if count == 0 {
      assert log + [] == log;
      assert handler(log).session + [] == handler(log).session;
    } else {
      OneMoreTracer(first, count, handler, log);
      FirstIsOutermost(first + 1, count - 1, handler, log + [Enter(first)]);
      var (inward, outward) := (Entering(first + 1, count - 1), Leaving(first + 1, count - 1));
      assert log + [Enter(first)] + inward == log + ([Enter(first)] + inward);
      var handled := handler(log + Entering(first, count)).session;
      assert handled + outward + [Leave(first)] == handled + (outward + [Leave(first)]);
    }
  }

  // ---- One command -------------------------------------------------------------------------

  /** What a transaction covers: the state of the shop and the rows of the outbox. */
  datatype Store<T> = Store(state: T, outbox: seq<Event>)

  /** What will go wrong outside the handler: the outbox may refuse a row after some were written, and the
      database may refuse the commit. */
  datatype Faults = Faults(outbox: Outbox, commitFails: bool)
  datatype Outbox = TakesAll | Refuses(after: nat, crashes: bool)

  predicate TakesEvents(outbox: Outbox, events: seq<Event>) {
    outbox.TakesAll? || |events| <= outbox.after
  }

  /** One request: what is committed, what its transaction has written and the events recorded so far. */
  datatype Session<T> = Session(committed: Store<T>, working: Store<T>, events: seq<Event>, faults: Faults)

  /** Commits what succeeded and rolls back what failed; a commit may itself be refused. */
  function Settle<T>(answer: Answer<Session<T>>): Answer<Session<T>> {
    match answer.failure
    case AppError => Answer(answer.session.(working := answer.session.committed), AppError)
    case Crash => answer
    case NoFailure =>
      if answer.session.faults.commitFails then Answer(answer.session, AppError)
      else Answer(answer.session.(committed := answer.session.working), NoFailure)
  }

  /** Pulls what the handler recorded and writes it, row by row, to the outbox of the same transaction. */
  function Drain<T>(answer: Answer<Session<T>>): Answer<Session<T>> {
    if answer.failure != NoFailure then answer
    else
      var (s, outbox) := (answer.session, answer.session.faults.outbox);
      var written := if TakesEvents(outbox, s.events) then s.events else s.events[..outbox.after];
      Answer(s.(working := s.working.(outbox := s.working.outbox + written), events := []),
             if written == s.events then NoFailure else if outbox.crashes then Crash else AppError)
  }

  function TransactionPipeline<T>(next: Handler<Session<T>>): Handler<Session<T>> {
    (s: Session<T>) => Settle(next(s))
  }

  function EventsPipeline<T>(next: Handler<Session<T>>): Handler<Session<T>> {
    (s: Session<T>) => Drain(next(s))
  }

  /** A handler works on its transaction and records events; it commits nothing and writes no outbox rows. */
  ghost predicate KeepsToItsTransaction<T(!new)>(handler: Handler<Session<T>>) {
    forall s: Session<T> ::
      var after := handler(s).session;
      after.committed == s.committed && after.working.outbox == s.working.outbox && after.faults == s.faults
  }

  datatype Command<!T> = Command(handler: Handler<Session<T>>, faults: Faults)

  function Opened<T>(store: Store<T>, c: Command<T>): Session<T> {
    Session(store, store, [], c.faults)
  }

  /** What a request leaves committed under the given registration. */
  function Execute<T>(store: Store<T>, c: Command<T>, pipelines: seq<Pipeline<Session<T>>>): Store<T> {
    Nest(pipelines, c.handler)(Opened(store, c)).session.committed
  }

  function Registered<T>(): seq<Pipeline<Session<T>>> {
    [TransactionPipeline<T>, EventsPipeline<T>]
  }

  /** The handler goes through, every row of its events is written, and the commit is taken. */
  predicate Succeeds<T>(store: Store<T>, c: Command<T>) {
    && c.handler(Opened(store, c)).failure == NoFailure
    && TakesEvents(c.faults.outbox, Recorded(store, c))
    && !c.faults.commitFails
  }

  function Recorded<T>(store: Store<T>, c: Command<T>): seq<Event> {
    c.handler(Opened(store, c)).session.events
  }

  lemma TwoPipelines<S>(outer: Pipeline<S>, inner: Pipeline<S>, handler: Handler<S>)
    ensures Nest([outer, inner], handler) == outer(inner(handler))
  {
    assert [outer, inner][1..] == [inner] && [inner][1..] == [];
    assert Nest([inner], handler) == inner(Nest([], handler));
  }

  lemma KeptApart<T(!new)>(store: Store<T>, c: Command<T>)
    requires KeepsToItsTransaction(c.handler)
    ensures var after := c.handler(Opened(store, c)).session;
            after.committed == store && after.working.outbox == store.outbox && after.faults == c.faults
  {
  }

  /** Draining and settling what a handler answers commits all of it or nothing. */
  lemma DrainedAndSettled<T>(answer: Answer<Session<T>>)
    requires answer.session.working.outbox == answer.session.committed.outbox
    ensures var (s, settled) := (answer.session, Settle(Drain(answer)).session.committed);
            if answer.failure == NoFailure && TakesEvents(s.faults.outbox, s.events) && !s.faults.commitFails then
              settled == Store(s.working.state, s.committed.outbox + s.events)
            else
              settled == s.committed
  {
  }

  /** A command that succeeds commits its state and its events together; any other, one whose events were
      written in part included, leaves both as they were. */
  lemma StateAndOutboxMoveTogether<T(!new)>(store: Store<T>, c: Command<T>)
    requires KeepsToItsTransaction(c.handler)
    ensures Succeeds(store, c) ==>
              var state := c.handler(Opened(store, c)).session.working.state;
              Execute(store, c, Registered<T>()) == Store(state, store.outbox + Recorded(store, c))
    ensures !Succeeds(store, c) ==> Execute(store, c, Registered<T>()) == store
  {
    hide KeepsToItsTransaction, Settle, Drain, TakesEvents, Execute;
    KeptApart(store, c);
    RegisteredChain(store, c);
    DrainedAndSettled(c.handler(Opened(store, c)));
  }

  lemma RegisteredChain<T>(store: Store<T>, c: Command<T>)
    ensures Execute(store, c, Registered<T>()) == Settle(Drain(c.handler(Opened(store, c)))).session.committed
    ensures Execute(store, c, [EventsPipeline<T>, TransactionPipeline<T>])
         == Drain(Settle(c.handler(Opened(store, c)))).session.committed
  {
    hide Settle, Drain;
    TwoPipelines(TransactionPipeline<T>, EventsPipeline<T>, c.handler);
    TwoPipelines(EventsPipeline<T>, TransactionPipeline<T>, c.handler);
  }

  /** What the caller is answered: success exactly when the command succeeds, otherwise the handler's own
      failure, or that of the outbox, or an application error for a refused commit. A caught error leaves
      nothing behind in the transaction, and a success no event behind in the log. */
  lemma WhatIsAnswered<T(!new)>(store: Store<T>, c: Command<T>)
    requires KeepsToItsTransaction(c.handler)
    ensures var handled := c.handler(Opened(store, c));
            var answer := Nest(Registered<T>(), c.handler)(Opened(store, c));
            && (answer.failure == NoFailure <==>
                && handled.failure == NoFailure
                && (c.faults.outbox.TakesAll? || |handled.session.events| <= c.faults.outbox.after)
                && !c.faults.commitFails)
            && (handled.failure != NoFailure ==> answer.failure == handled.failure)
            && (handled.failure == NoFailure && c.faults.outbox.Refuses?
                && |handled.session.events| > c.faults.outbox.after ==>
                  answer.failure == if c.faults.outbox.crashes then Crash else AppError)
            && (handled.failure == NoFailure && c.faults.outbox.TakesAll? && c.faults.commitFails ==>
                  answer.failure == AppError)
            && (handled.failure == AppError ==> answer.session.working == answer.session.committed == store)
            && (answer.failure == AppError && !c.faults.commitFails ==>
                  answer.session.working == answer.session.committed == store)
            && (answer.failure == NoFailure ==>
                  answer.session.working == answer.session.committed && answer.session.events == [])
  {
    hide KeepsToItsTransaction;
    KeptApart(store, c);
    TwoPipelines(TransactionPipeline<T>, EventsPipeline<T>, c.handler);
    SettledAnswer(c.handler(Opened(store, c)));
    hide Settle, Drain;
  }

  lemma SettledAnswer<T>(handled: Answer<Session<T>>)
    ensures var (s, answer) := (handled.session, Settle(Drain(handled)));
            && (answer.failure == NoFailure <==>
                handled.failure == NoFailure && TakesEvents(s.faults.outbox, s.events) && !s.faults.commitFails)
            && (handled.failure != NoFailure ==> answer.failure == handled.failure)
            && (handled.failure == NoFailure && !TakesEvents(s.faults.outbox, s.events) ==>
                  answer.failure == if s.faults.outbox.crashes then Crash else AppError)
            && (handled.failure == NoFailure && TakesEvents(s.faults.outbox, s.events) && s.faults.commitFails ==>
                  answer.failure == AppError)
            && (answer.failure == AppError && (handled.failure == AppError || !s.faults.commitFails) ==>
                  answer.session.working == answer.session.committed == s.committed)
            && (answer.failure == NoFailure ==>
                  answer.session.working == answer.session.committed && answer.session.events == [])
  {
  }

  /** Registered the other way round, a command whose handler goes through commits its state without its
      events, whether or not the outbox would take them. */
  lemma ReversedRegistrationLosesEvents<T(!new)>(store: Store<T>, c: Command<T>)
    requires KeepsToItsTransaction(c.handler)
    requires c.handler(Opened(store, c)).failure == NoFailure && !c.faults.commitFails
    ensures Execute(store, c, [EventsPipeline<T>, TransactionPipeline<T>])
         == Store(c.handler(Opened(store, c)).session.working.state, store.outbox)
  {
    hide KeepsToItsTransaction;
    KeptApart(store, c);
    RegisteredChain(store, c);
  }

  // ---- Every run --------------------------------------------------------------------------------

  function ExecuteAll<T>(store: Store<T>, commands: seq<Command<T>>): Store<T>
    decreases |commands|
  {
    if commands == [] then store else ExecuteAll(Execute(store, commands[0], Registered<T>()), commands[1..])
  }

  /** The events of the commands that succeed, in the order they ran. */
  function CommittedEvents<T>(store: Store<T>, commands: seq<Command<T>>): seq<Event>
    decreases |commands|
  {
    if commands == [] then []
    else
      (if Succeeds(store, commands[0]) then Recorded(store, commands[0]) else [])
      + CommittedEvents(Execute(store, commands[0], Registered<T>()), commands[1..])
  }

  /** The state when only the commands that succeed have ever run. */
  function CommittedState<T>(store: Store<T>, commands: seq<Command<T>>): T
    decreases |commands|
  {
    if commands == [] then store.state
    else
      var c := commands[0];
      CommittedState(
        if Succeeds(store, c) then
          Store(c.handler(Opened(store, c)).session.working.state, store.outbox + Recorded(store, c))
        else store,
        commands[1..])
  }

  /** After any run of commands, failed and crashed ones included, the outbox holds exactly the events of the
      committed ones in recorded order, and the state is the one those commands make. */
  lemma {:induction false} OutboxTellsTheRun<T(!new)>(store: Store<T>, commands: seq<Command<T>>)
    requires forall c :: c in commands ==> KeepsToItsTransaction(c.handler)
    ensures ExecuteAll(store, commands)
         == Store(CommittedState(store, commands), store.outbox + CommittedEvents(store, commands))
    decreases |commands|
  {
    hide Execute, Succeeds, Recorded, Opened;
    if commands == [] {
      assert store.outbox + [] == store.outbox;
    } else {
      assert commands[0] in commands;
      StateAndOutboxMoveTogether(store, commands[0]);
      var next := Execute(store, commands[0], Registered<T>());
      OutboxTellsTheRun(next, commands[1..]);
      assert next.outbox == store.outbox + if Succeeds(store, commands[0]) then Recorded(store, commands[0]) else [];
    }
  }
}
