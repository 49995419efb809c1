/** The in-memory store of AI run events, and the clients that poll it with the last sequence they saw. */
module RunEvents {
  import opened Wrappers
  import opened JsonTree
  import opened SensitiveData

  type RunId = string

  datatype Status = Queued | Running | Completed | Failed {
    predicate IsTerminal() {
      Completed? || Failed?
    }
  }

  datatype Event = Event(sequence: int, name: string, payload: Json)

  datatype Run = Run(status: Status, events: seq<Event>, nextSequence: int, result: Option<Json>, errorMessage: Option<string>) {

    /** `_append_locked`. */
    function Logged(name: string, payload: Json): Run {
      this.(events := events + [Event(nextSequence, name, Mask(payload))], nextSequence := nextSequence + 1)
    }

    function Started(): Run {
      this.(status := Running).Logged("run.started", Dict(NoEntry))
    }

    function CompletedWith(value: Json): Run {
      this.(result := Some(Mask(value)), status := Completed).Logged("run.completed", ResultPayload(Mask(value)))
    }

    function FailedWith(message: string): Run {
      this.(errorMessage := Some(message), status := Failed).Logged("run.failed", ErrorPayload(message))
    }
  }

  function NewRun(request: Json): Run {
    Run(Queued, [], 1, None, None).Logged("run.queued", request)
  }

  function ResultPayload(value: Json): Json {
    Dict(Entry("result", value, NoEntry))
  }

  function ErrorPayload(message: string): Json {
    Dict(Entry("error_message", Text(message), NoEntry))
  }

  /** The events a client has not seen. */
  function EventsAfter(events: seq<Event>, cursor: int): seq<Event> {
    if events == [] then []
    else (if events[0].sequence > cursor then [events[0]] else []) + EventsAfter(events[1..], cursor)
  }

  // ---------------------------------------------------------------- the store

  /** Each method is one critical section; `false` and None stand for a raised KeyError. */
  class AIRunEventStore {
    var runs: map<RunId, Run>

    constructor ()
      ensures runs == map[]
    {
      runs := map[];
    }

    /** The fresh identifier a new run gets is an argument. */
    method CreateRun(runId: RunId, skillId: string, operation: string, projectId: Json)
      requires runId !in runs
      modifies this
      ensures runs == old(runs)[runId := NewRun(RequestPayload(skillId, operation, projectId))]
    {
      runs := runs[runId := Run(Queued, [], 1, None, None)];
      AppendLocked(runId, "run.queued", RequestPayload(skillId, operation, projectId));
    }

    method StartRun(runId: RunId) returns (ok: bool)
      modifies this
      ensures ok == (runId in old(runs))
      ensures runs == if ok then old(runs)[runId := old(runs)[runId].Started()] else old(runs)
    {
      if runId !in runs {
        return false;
      }
      SetStatusLocked(runId, Running);
      AppendLocked(runId, "run.started", Dict(NoEntry));
      return true;
    }

    method CompleteRun(runId: RunId, result: Json) returns (ok: bool)
      modifies this
      ensures ok == (runId in old(runs))
      ensures runs == if ok then old(runs)[runId := old(runs)[runId].CompletedWith(result)] else old(runs)
    {
      if runId !in runs {
        return false;
      }
      runs := runs[runId := runs[runId].(result := Some(Mask(result)))];
      SetStatusLocked(runId, Completed);
      AppendLocked(runId, "run.completed", ResultPayload(runs[runId].result.value));
      return true;
    }

    method FailRun(runId: RunId, errorMessage: string) returns (ok: bool)
      modifies this
      ensures ok == (runId in old(runs))
      ensures runs == if ok then old(runs)[runId := old(runs)[runId].FailedWith(errorMessage)] else old(runs)
    {
      if runId !in runs {
        return false;
      }
      runs := runs[runId := runs[runId].(errorMessage := Some(errorMessage))];
      SetStatusLocked(runId, Failed);
      AppendLocked(runId, "run.failed", ErrorPayload(errorMessage));
      return true;
    }

    method Append(runId: RunId, name: string, payload: Json) returns (ok: bool)
      modifies this
      ensures ok == (runId in old(runs))
      ensures runs == if ok then old(runs)[runId := old(runs)[runId].Logged(name, payload)] else old(runs)
    {
      if runId !in runs {
        return false;
      }
      AppendLocked(runId, name, payload);
      return true;
    }

    /** What a wait returns once it is over, by news or by timeout. */
    method WaitForEvents(runId: RunId, afterSequence: int) returns (r: Option<(seq<Event>, Status)>)
      ensures r == if runId in runs then Some((EventsAfter(runs[runId].events, afterSequence), runs[runId].status)) else None
    {
      if runId !in runs {
        return None;
      }
      var run := runs[runId];
      var events := [];
      for i := 0 to |run.events|
        invariant events + EventsAfter(run.events[i..], afterSequence) == EventsAfter(run.events, afterSequence)
      {
        assert run.events[i..][1..] == run.events[i + 1..];
        if run.events[i].sequence > afterSequence {
          events := events + [run.events[i]];
        }
      }
      assert events + EventsAfter(run.events[|run.events|..], afterSequence) == events;
      return Some((events, run.status));
    }

    method AppendLocked(runId: RunId, name: string, payload: Json)
      requires runId in runs
      modifies this
      ensures runs == old(runs)[runId := old(runs)[runId].Logged(name, payload)]
    {
      var run := runs[runId];
      var item := Event(run.nextSequence, name, Mask(payload));
      run := run.(nextSequence := run.nextSequence + 1);
      run := run.(events := run.events + [item]);
      runs := runs[runId := run];
    }

    method SetStatusLocked(runId: RunId, status: Status)
      requires runId in runs
      modifies this
      ensures runs == old(runs)[runId := old(runs)[runId].(status := status)]
    {
      runs := runs[runId := runs[runId].(status := status)];
    }
  }

  function RequestPayload(skillId: string, operation: string, projectId: Json): Json {
    Dict(Entry("skill_id", Text(skillId), Entry("operation", Text(operation), Entry("project_id", projectId, NoEntry))))
  }

  // ---------------------------------------------------------------- any interleaving of stores and clients

  /** A client of one run: the last sequence it saw, what it received, the status it saw last. */
  datatype Client = Client(runId: RunId, cursor: int, received: seq<Event>, seen: Option<Status>)

  datatype System = System(runs: map<RunId, Run>, clients: map<nat, Client>)

  datatype Step =
    | Create(runId: RunId, request: Json)
    | Start(runId: RunId)
    | Complete(runId: RunId, value: Json)
    | Fail(runId: RunId, message: string)
    | Log(runId: RunId, name: string, payload: Json)
    | Join(client: nat, runId: RunId)
    | Poll(client: nat)

  function Next(s: System, step: Step): System {
    match step
    case Create(id, request) => if id in s.runs then s else s.(runs := s.runs[id := NewRun(request)])
    case Start(id) => if id !in s.runs then s else s.(runs := s.runs[id := s.runs[id].Started()])
    case Complete(id, value) => if id !in s.runs then s else s.(runs := s.runs[id := s.runs[id].CompletedWith(value)])
    case Fail(id, message) => if id !in s.runs then s else s.(runs := s.runs[id := s.runs[id].FailedWith(message)])
    case Log(id, name, payload) => if id !in s.runs then s else s.(runs := s.runs[id := s.runs[id].Logged(name, payload)])
    case Join(c, id) =>
      if c in s.clients || id !in s.runs then s else s.(clients := s.clients[c := Client(id, 0, [], None)])
    case Poll(c) =>
      if c !in s.clients || s.clients[c].runId !in s.runs then s
      else s.(clients := s.clients[c := Polled(s.clients[c], s.runs[s.clients[c].runId])])
  }

  /** A client stops at the first terminal status; until then it moves its cursor to the last event it got. */
  function Polled(c: Client, run: Run): Client {
    if c.seen.Some? && c.seen.value.IsTerminal() then c
    else
      var news := EventsAfter(run.events, c.cursor);
      Client(c.runId, if news == [] then c.cursor else news[|news| - 1].sequence, c.received + news, Some(run.status))
  }

  function After(steps: seq<Step>): System {
    if steps == [] then System(map[], map[])
    else Next(After(steps[..|steps| - 1]), steps[|steps| - 1])
  }

  // ---------------------------------------------------------------- what every state keeps

  ghost predicate Holds(events: seq<Event>, name: string, payload: Json) {
    exists i :: 0 <= i < |events| && events[i].name == name && events[i].payload == payload
  }

  /** Some event completes the run, with a result in it; or fails it, with a message in it. */
  ghost predicate HoldsCompletion(events: seq<Event>) {
    exists value :: Holds(events, "run.completed", ResultPayload(value))
  }

  ghost predicate HoldsFailure(events: seq<Event>) {
    exists message :: Holds(events, "run.failed", Mask(ErrorPayload(message)))
  }

  /** The status of a run that ended is told by an event that carries its result, or its error message. */
  ghost predicate TellsItsEnd(run: Run) {
    && (run.status == Completed ==> run.result.Some? && Holds(run.events, "run.completed", ResultPayload(run.result.value)))
    && (run.status == Failed ==> run.errorMessage.Some? && Holds(run.events, "run.failed", Mask(ErrorPayload(run.errorMessage.value))))
  }

  ghost predicate RunInv(run: Run) {
    && run.nextSequence == |run.events| + 1
    && (forall i :: 0 <= i < |run.events| ==> run.events[i].sequence == i + 1 && Masked(run.events[i].payload))
    && (run.result.Some? ==> Masked(run.result.value))
    && TellsItsEnd(run)
  }

  ghost predicate ClientInv(c: Client, runs: map<RunId, Run>) {
    && c.runId in runs
    && c.cursor == |c.received| <= |runs[c.runId].events|
    && c.received == runs[c.runId].events[..c.cursor]
    && (c.seen == Some(Completed) ==> HoldsCompletion(c.received))
    && (c.seen == Some(Failed) ==> HoldsFailure(c.received))
  }

  ghost predicate Inv(s: System) {
    && (forall id :: id in s.runs ==> RunInv(s.runs[id]))
    && (forall c :: c in s.clients ==> ClientInv(s.clients[c], s.runs))
  }

  lemma HoldsStays(events: seq<Event>, e: Event, name: string, payload: Json)
    ensures Holds(events, name, payload) ==> Holds(events + [e], name, payload)
    ensures e.name == name && e.payload == payload ==> Holds(events + [e], name, payload)
  {
    if i :| 0 <= i < |events| && events[i].name == name && events[i].payload == payload {
      assert (events + [e])[i] == events[i];
    }
    assert (events + [e])[|events|] == e;
  }

  lemma LoggedKeeps(run: Run, name: string, payload: Json)
    requires run.nextSequence == |run.events| + 1
    requires forall i :: 0 <= i < |run.events| ==> run.events[i].sequence == i + 1 && Masked(run.events[i].payload)
    requires run.result.Some? ==> Masked(run.result.value)
    requires TellsItsEnd(run.Logged(name, payload))
    ensures RunInv(run.Logged(name, payload))
  {
    MaskMasks(payload);
    var after := run.Logged(name, payload);
    assert forall i :: 0 <= i < |run.events| ==> after.events[i] == run.events[i];
  }

  lemma LoggedStillTells(run: Run, name: string, payload: Json)
    requires TellsItsEnd(run)
    ensures TellsItsEnd(run.Logged(name, payload))
  {
    var e := Event(run.nextSequence, name, Mask(payload));
    if run.status == Completed {
      HoldsStays(run.events, e, "run.completed", ResultPayload(run.result.value));
    } else if run.status == Failed {
      HoldsStays(run.events, e, "run.failed", Mask(ErrorPayload(run.errorMessage.value)));
    }
  }

  /** Every step only adds events to a run. */
  ghost predicate Grows(before: map<RunId, Run>, after: map<RunId, Run>) {
    forall id :: id in before ==> id in after && before[id].events <= after[id].events
  }

  lemma ClientSurvives(c: Client, before: map<RunId, Run>, after: map<RunId, Run>)
    requires ClientInv(c, before) && Grows(before, after)
    ensures ClientInv(c, after)
  {
    assert before[c.runId].events <= after[c.runId].events;
  }

  lemma {:induction false} EventsAfterIsTail(events: seq<Event>, first: int, cursor: int)
    requires forall i :: 0 <= i < |events| ==> events[i].sequence == first + i
    ensures EventsAfter(events, cursor) ==
            events[if cursor < first then 0 else if cursor - first + 1 <= |events| then cursor - first + 1 else |events|..]
  {
    if events != [] {
      EventsAfterIsTail(events[1..], first + 1, cursor);
    }
  }

  lemma PollKeeps(c: Client, runs: map<RunId, Run>)
    requires ClientInv(c, runs) && RunInv(runs[c.runId])
    ensures ClientInv(Polled(c, runs[c.runId]), runs)
    ensures !(c.seen.Some? && c.seen.value.IsTerminal()) ==> Polled(c, runs[c.runId]).received == runs[c.runId].events
  {
    var run := runs[c.runId];
    EventsAfterIsTail(run.events, 1, c.cursor);
    assert EventsAfter(run.events, c.cursor) == run.events[c.cursor..];
    assert run.events[..c.cursor] + run.events[c.cursor..] == run.events;
    assert run.events[..|run.events|] == run.events;
  }

  lemma RunChangeKeeps(s: System, id: RunId, run: Run)
    requires Inv(s) && RunInv(run)
    requires id in s.runs ==> s.runs[id].events <= run.events
    ensures Inv(s.(runs := s.runs[id := run])) && Grows(s.runs, s.runs[id := run])
  {
    var runs := s.runs[id := run];
    forall c | c in s.clients ensures ClientInv(s.clients[c], runs) {
      ClientSurvives(s.clients[c], s.runs, runs);
    }
  }

  lemma StepKeeps(s: System, step: Step)
    requires Inv(s)
    ensures Inv(Next(s, step)) && Grows(s.runs, Next(s, step).runs)
  {
    match step
    case Create(id, request) =>
      LoggedKeeps(Run(Queued, [], 1, None, None), "run.queued", request);
      if id !in s.runs {
        RunChangeKeeps(s, id, NewRun(request));
      }
    case Start(id) =>
      if id in s.runs {
        LoggedKeeps(s.runs[id].(status := Running), "run.started", Dict(NoEntry));
        RunChangeKeeps(s, id, s.runs[id].Started());
      }
    case Complete(id, value) =>
      if id in s.runs {
        CompletingKeeps(s.runs[id], value);
        RunChangeKeeps(s, id, s.runs[id].CompletedWith(value));
      }
    case Fail(id, message) =>
      if id in s.runs {
        FailingKeeps(s.runs[id], message);
        RunChangeKeeps(s, id, s.runs[id].FailedWith(message));
      }
    case Log(id, name, payload) =>
      if id in s.runs {
        LoggedStillTells(s.runs[id], name, payload);
        LoggedKeeps(s.runs[id], name, payload);
        RunChangeKeeps(s, id, s.runs[id].Logged(name, payload));
      }
    case Join(c, id) =>
    case Poll(c) =>
      if c in s.clients {
        PollKeeps(s.clients[c], s.runs);
      }
  }

  lemma CompletingKeeps(run: Run, value: Json)
    requires RunInv(run)
    ensures RunInv(run.CompletedWith(value))
  {
    CompletionEventCarriesTheResult(run, value);
    MaskMasks(value);
    HoldsStays(run.events, Event(run.nextSequence, "run.completed", ResultPayload(Mask(value))), "run.completed",
               ResultPayload(Mask(value)));
    LoggedKeeps(run.(result := Some(Mask(value)), status := Completed), "run.completed", ResultPayload(Mask(value)));
  }

  lemma FailingKeeps(run: Run, message: string)
    requires RunInv(run)
    ensures RunInv(run.FailedWith(message))
  {
    var payload := Mask(ErrorPayload(message));
    HoldsStays(run.events, Event(run.nextSequence, "run.failed", payload), "run.failed", payload);
    LoggedKeeps(run.(errorMessage := Some(message), status := Failed), "run.failed", ErrorPayload(message));
  }

  lemma {:induction false} EveryRunKeeps(steps: seq<Step>)
    ensures Inv(After(steps))
  {
    if steps != [] {
      EveryRunKeeps(steps[..|steps| - 1]);
      StepKeeps(After(steps[..|steps| - 1]), steps[|steps| - 1]);
    }
  }

  /** The status the last step on a run that sets one gives it; None before it is created. */
  function LastStatus(steps: seq<Step>, id: RunId): Option<Status> {
    if steps == [] then None
    else
      var before, step := LastStatus(steps[..|steps| - 1], id), steps[|steps| - 1];
      if before == None then (if step.Create? && step.runId == id then Some(Queued) else None)
      else if step == Start(id) then Some(Running)
      else if step.Complete? && step.runId == id then Some(Completed)
      else if step.Fail? && step.runId == id then Some(Failed)
      else before
  }

  /** In every interleaving a run has the status of the last start, completion or failure; logging and polling leave it. */
  lemma {:induction false} StatusIsTheLastOne(steps: seq<Step>, id: RunId)
    ensures LastStatus(steps, id) == if id in After(steps).runs then Some(After(steps).runs[id].status) else None
  {
    if steps != [] {
      StatusIsTheLastOne(steps[..|steps| - 1], id);
    }
  }

  /** Sequences are dense from 1, and nothing that should be masked is stored, in every interleaving. */
  lemma SequencesAreDense(steps: seq<Step>, id: RunId)
    requires id in After(steps).runs
    ensures var run := After(steps).runs[id];
            && (forall i :: 0 <= i < |run.events| ==> run.events[i].sequence == i + 1)
            && (forall i :: 0 <= i < |run.events| ==> Mask(run.events[i].payload) == run.events[i].payload)
            && (run.result.Some? ==> Mask(run.result.value) == run.result.value)
  {
    EveryRunKeeps(steps);
    var run := After(steps).runs[id];
    forall i | 0 <= i < |run.events| ensures Mask(run.events[i].payload) == run.events[i].payload {
      MaskFixesExactlyMasked(run.events[i].payload);
    }
    if run.result.Some? {
      MaskFixesExactlyMasked(run.result.value);
    }
  }

  /** A client has received each event up to its cursor once and in order; a poll that is not refused brings it level. */
  lemma ClientsMissNothing(steps: seq<Step>, c: nat)
    requires c in After(steps).clients
    ensures var s := After(steps);
            var client := s.clients[c];
            && client.runId in s.runs
            && client.received <= s.runs[client.runId].events
            && client.cursor == |client.received|
            && (client.seen == None || !client.seen.value.IsTerminal() ==>
                  Next(s, Poll(c)).clients[c].received == s.runs[client.runId].events)
  {
    EveryRunKeeps(steps);
    PollKeeps(After(steps).clients[c], After(steps).runs);
  }

  /** A client that stopped has the event that says why, with a result or a message in it. */
  lemma StoppedClientsKnowWhy(steps: seq<Step>, c: nat)
    requires c in After(steps).clients
    ensures After(steps).clients[c].seen == Some(Completed) ==> HoldsCompletion(After(steps).clients[c].received)
    ensures After(steps).clients[c].seen == Some(Failed) ==> HoldsFailure(After(steps).clients[c].received)
  {
    EveryRunKeeps(steps);
  }

  /** The poll at which it stops brings the very result, or the very message, that the run has then. */
  lemma TheLastPollBringsTheEnd(steps: seq<Step>, c: nat)
    requires c in After(steps).clients
    requires After(steps).clients[c].seen == None || !After(steps).clients[c].seen.value.IsTerminal()
    ensures var s := After(steps);
            s.clients[c].runId in s.runs &&
            var run, client := s.runs[s.clients[c].runId], Next(s, Poll(c)).clients[c];
            && client.seen == Some(run.status)
            && (run.status == Completed ==>
                  run.result.Some? && Holds(client.received, "run.completed", ResultPayload(run.result.value)))
            && (run.status == Failed ==>
                  run.errorMessage.Some? && Holds(client.received, "run.failed", Mask(ErrorPayload(run.errorMessage.value))))
  {
    EveryRunKeeps(steps);
    PollKeeps(After(steps).clients[c], After(steps).runs);
  }

  /** The event of a completed run carries exactly the result the run keeps: masking it a second time changes nothing. */
  lemma CompletionEventCarriesTheResult(run: Run, value: Json)
    ensures var after := run.CompletedWith(value);
            && after.result == Some(Mask(value))
            && after.events == run.events + [Event(run.nextSequence, "run.completed", ResultPayload(Mask(value)))]
  {
    var key := "result";
    assert Normalized(key) == key;
    NotSensitiveBy(key, [0, 0, 0, 0, 2, 1, 0, 0, 0, 0]);
    assert MARKER[0] != key[0];
    MaskIsIdempotent(value);
    assert MaskEntries(Entry(key, Mask(value), NoEntry)) == Entry(key, Mask(Mask(value)), MaskEntries(NoEntry));
  }
}
