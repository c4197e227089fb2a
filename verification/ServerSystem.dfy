/**
 Reader, main loop and coalescing analysis worker as one step system, and what every
 interleaving of them keeps.
 */
module ServerSystem {
  import opened Wrappers
  import opened WorkspaceSessions
  import opened LanguageServers

  datatype Incoming = Got(message: Message) | EndOfInput | TransportFailed

  datatype Event = Input(incoming: Incoming) | Finished(analysis: SnapshotAnalysis)

  /** Waiting for a snapshot, holding the newest one taken so far, or analysing it. */
  datatype Worker = Idle | Holding(snapshot: Snapshot) | Analysing(snapshot: Snapshot)

  datatype Ending = Exited(code: nat) | Broken

  /** `owed` counts the messages handled so far that must be answered, by identity. */
  datatype System = System(
    world: World, input: seq<Incoming>, events: seq<Event>, worker: Worker, ended: Option<Ending>,
    owed: multiset<RequestId>)

  function Boot(session: Session, input: seq<Incoming>): System {
    System(World(ServerState(session, WaitingForInitialize, None, None, []), [], []), input, [], Idle, None, multiset{})
  }

  /* ----- what must be answered ----- */

  /** The identity a message has to be answered under, if any. */
  function Owes(m: Message): multiset<RequestId> {
    match m
    case Unparsable => multiset{NullId}
    case NotAnObject => multiset{NullId}
    case Call(id, isVersion2, name, _) =>
      if id.Some? then multiset{id.value}
      else if !isVersion2 || name.None? then multiset{NullId}
      else multiset{}
  }

  function Answered(written: seq<Output>): multiset<RequestId> {
    if written == [] then multiset{}
    else
      var last := written[|written| - 1];
      Answered(written[..|written| - 1]) + (if last.Response? then multiset{last.id} else multiset{})
  }

  function Waiting(pending: seq<PendingQuery>): multiset<RequestId> {
    if pending == [] then multiset{}
    else Waiting(pending[..|pending| - 1]) + multiset{pending[|pending| - 1].id}
  }

  /* ----- steps ----- */

  datatype Action = ReaderStep | WorkerTake | WorkerCoalesce | WorkerStart | WorkerFinish | MainStep

  predicate Enabled(s: System, action: Action) {
    match action
    case ReaderStep => s.input != []
    case WorkerTake => s.worker.Idle? && s.world.channel != []
    case WorkerCoalesce => s.worker.Holding? && s.world.channel != []
    case WorkerStart => s.worker.Holding? && s.world.channel == []
    case WorkerFinish => s.worker.Analysing?
    case MainStep => s.ended.None? && s.events != []
  }

  function MainLoop(s: System): System
    requires Enabled(s, MainStep)
  {
    var rest := s.(events := s.events[1..]);
    match s.events[0]
    case Finished(analysis) => rest.(world := Accept(s.world, analysis))
    case Input(EndOfInput) => rest.(ended := Some(Exited(1)))
    case Input(TransportFailed) => rest.(ended := Some(Broken))
    case Input(Got(m)) =>
      var (world, code) := Handle(s.world, m);
      rest.(world := world, owed := s.owed + Owes(m),
            ended := match code case Some(c) => Some(Exited(c)) case None => None)
  }

  function Next(s: System, action: Action): System
    requires Enabled(s, action)
  {
    match action
    case ReaderStep =>
      s.(input := if s.input[0].Got? then s.input[1..] else [], events := s.events + [Input(s.input[0])])
    case WorkerTake =>
      s.(worker := Holding(s.world.channel[0]), world := s.world.(channel := s.world.channel[1..]))
    case WorkerCoalesce =>
      s.(worker := Holding(s.world.channel[0]), world := s.world.(channel := s.world.channel[1..]))
    case WorkerStart => s.(worker := Analysing(s.worker.snapshot))
    case WorkerFinish => s.(worker := Idle, events := s.events + [Finished(SnapshotAnalysis(s.worker.snapshot))])
    case MainStep => MainLoop(s)
  }

  ghost predicate IsExecution(states: seq<System>, actions: seq<Action>) {
    && |states| == |actions| + 1
    && (exists session, input :: ValidSession(session) && states[0] == Boot(session, input))
    && forall i | 0 <= i < |actions| :: Enabled(states[i], actions[i]) && states[i + 1] == Next(states[i], actions[i])
  }

  /* ----- conservation ----- */

  lemma {:induction false} AnsweredConcat(a: seq<Output>, b: seq<Output>)
    ensures Answered(a + b) == Answered(a) + Answered(b)
    decreases |b|
  {
    if b == [] {
      assert a + b == a;
    } else {
      assert (a + b)[..|a + b| - 1] == a + b[..|b| - 1];
      AnsweredConcat(a, b[..|b| - 1]);
    }
  }

  lemma {:induction false} WaitingConcat(a: seq<PendingQuery>, b: seq<PendingQuery>)
    ensures Waiting(a + b) == Waiting(a) + Waiting(b)
    decreases |b|
  {
    if b == [] {
      assert a + b == a;
    } else {
      assert (a + b)[..|a + b| - 1] == a + b[..|b| - 1];
      WaitingConcat(a, b[..|b| - 1]);
    }
  }

  lemma {:induction false} RefusalsAnswer(pending: seq<PendingQuery>, code: int)
    ensures Answered(Refusals(pending, code)) == Waiting(pending)
  {
    if pending != [] {
      var n := |pending| - 1;
      RefusalsAnswer(pending[..n], code);
      AnsweredConcat(Refusals(pending[..n], code), [Response(pending[n].id, Refused(code))]);
      AnsweredOne(Response(pending[n].id, Refused(code)));
    }
  }

  lemma AnsweredOne(o: Output)
    ensures Answered([o]) == if o.Response? then multiset{o.id} else multiset{}
  {
    assert [o][..0] == [];
  }

  lemma {:induction false} AnswersAnswer(pending: seq<PendingQuery>, from: Snapshot)
    ensures Answered(Answers(pending, from)) == Waiting(pending)
  {
    if pending != [] {
      var n := |pending| - 1;
      AnswersAnswer(pending[..n], from);
      AnsweredConcat(Answers(pending[..n], from), [AnswerOne(pending[n], from)]);
      AnsweredOne(AnswerOne(pending[n], from));
    }
  }

  lemma {:induction false} PublishedAnswersNothing(id: SnapshotId, documents: seq<SnapshotDocument>)
    ensures Answered(Published(id, documents)) == multiset{}
  {
    if documents != [] {
      var last := documents[|documents| - 1];
      PublishedAnswersNothing(id, documents[..|documents| - 1]);
      AnsweredConcat(Published(id, documents[..|documents| - 1]), [Diagnostics(id, last.path, last.version)]);
      AnsweredOne(Diagnostics(id, last.path, last.version));
    }
  }

  lemma WaitingMore(pending: seq<PendingQuery>, q: PendingQuery)
    ensures Waiting(pending + [q]) == Waiting(pending) + multiset{q.id}
  {
    assert (pending + [q])[..|pending|] == pending;
  }

  lemma OneMore(all: multiset<RequestId>, kept: multiset<RequestId>, left: multiset<RequestId>,
                one: multiset<RequestId>)
    requires all == kept + left
    ensures all + one == (kept + one) + left == kept + (left + one)
  {
  }

  lemma {:induction false} Divided(pending: seq<PendingQuery>, current: SnapshotId, i: nat)
    requires i <= |pending|
    ensures Waiting(pending[..i])
        == Waiting(Retained(pending[..i], current)) + Waiting(Superseded(pending[..i], current))
  {
    if i == 0 {
      assert pending[..0] == [];
      return;
    }
    hide *;
    Divided(pending, current, i - 1);
    DividedOnce(pending, current, i - 1);
  }

  lemma DividedOnce(pending: seq<PendingQuery>, current: SnapshotId, i: nat)
    requires i < |pending|
    requires Waiting(pending[..i])
        == Waiting(Retained(pending[..i], current)) + Waiting(Superseded(pending[..i], current))
    ensures Waiting(pending[..i + 1]) ==
            Waiting(Retained(pending[..i + 1], current)) + Waiting(Superseded(pending[..i + 1], current))
  {
    hide Waiting; hide Retained; hide Superseded;
    DivideNext(pending, i, current);
    var q, retained, superseded := pending[i], Retained(pending[..i], current), Superseded(pending[..i], current);
    WaitingMore(retained, q);
    WaitingMore(superseded, q);
    WaitingMore(pending[..i], q);
    assert pending[..i + 1] == pending[..i] + [q];
    OneMore(Waiting(pending[..i]), Waiting(retained), Waiting(superseded), multiset{q.id});
  }

  /** Everything owed is answered or waiting. */
  ghost function Settled(w: World): multiset<RequestId> {
    Answered(w.written) + Waiting(w.server.pending)
  }

  lemma ReplySettles(w: World, id: RequestId, outcome: Outcome)
    ensures Settled(Reply(w, id, outcome)) == Settled(w) + multiset{id}
  {
    AnsweredConcat(w.written, [Response(id, outcome)]);
    AnsweredOne(Response(id, outcome));
  }

  lemma InvalidateSettles(w: World)
    ensures Settled(Invalidate(w)) == Settled(w)
  {
    var current := IdOf(w.server.session);
    Divided(w.server.pending, current, |w.server.pending|);
    assert w.server.pending[..|w.server.pending|] == w.server.pending;
    AnsweredConcat(w.written, Refusals(Superseded(w.server.pending, current), CONTENT_MODIFIED));
    RefusalsAnswer(Superseded(w.server.pending, current), CONTENT_MODIFIED);
  }

  lemma Around<T>(s: seq<T>, i: nat)
    requires i < |s|
    ensures s == (s[..i] + [s[i]]) + s[i + 1..]
  {
  }

  lemma OneLess(front: multiset<RequestId>, one: multiset<RequestId>, back: multiset<RequestId>)
    ensures (front + one) + back == (front + back) + one
  {
  }

  lemma WaitingWithout(pending: seq<PendingQuery>, i: nat)
    requires i < |pending|
    ensures Waiting(pending) == Waiting(pending[..i] + pending[i + 1..]) + multiset{pending[i].id}
  {
    hide *;
    Around(pending, i);
    WaitingMore(pending[..i], pending[i]);
    WaitingConcat(pending[..i] + [pending[i]], pending[i + 1..]);
    WaitingConcat(pending[..i], pending[i + 1..]);
    OneLess(Waiting(pending[..i]), multiset{pending[i].id}, Waiting(pending[i + 1..]));
  }

  lemma CancelSettles(w: World, cancelled: Option<RequestId>)
    ensures Settled(Cancel(w, cancelled)) == Settled(w)
  {
    if cancelled.Some? {
      var pending := w.server.pending;
      var i := FirstWith(pending, cancelled.value);
      if i < |pending| {
        var without := w.(server := w.server.(pending := pending[..i] + pending[i + 1..]));
        assert Cancel(w, cancelled) == Reply(without, cancelled.value, Refused(CANCELLED));
        assert pending[i].id == cancelled.value;
        hide Cancel; hide Waiting; hide Answered;
        WaitingWithout(pending, i);
        assert Settled(w) == Settled(without) + multiset{cancelled.value};
        hide Settled; hide Reply;
        ReplySettles(without, cancelled.value, Refused(CANCELLED));
      }
    }
  }

  lemma CancelAllSettles(w: World)
    ensures Settled(CancelAll(w)) == Settled(w)
  {
    AnsweredConcat(w.written, Refusals(w.server.pending, CANCELLED));
    RefusalsAnswer(w.server.pending, CANCELLED);
  }

  lemma AcceptSettles(w: World, completed: SnapshotAnalysis)
    ensures Settled(Accept(w, completed)) == Settled(w)
  {
    var from := completed.snapshot;
    if AcceptAnalysis(w.server.session, completed).Some? {
      var published, answers := Published(from.id, from.documents), Answers(w.server.pending, from);
      AnsweredConcat(w.written, published + answers);
      AnsweredConcat(published, answers);
      PublishedAnswersNothing(from.id, from.documents);
      AnswersAnswer(w.server.pending, from);
    }
  }

  lemma NotifySettles(w: World, name: string, p: Params)
    ensures Settled(Notify(w, name, p)) == Settled(w)
  {
    hide IsEdit; hide EditFor; hide ApplyEdit; hide Cancel; hide Schedule; hide Settled;
    if !w.server.lifecycle.Running? { return; }
    if name == "initialized" {
      ScheduleSettles(w);
      return;
    }
    if name == "$/cancelRequest" {
      CancelSettles(w, p.cancelled);
      return;
    }
    if IsEdit(name) { EditSettles(w, EditFor(name, p)); }
  }

  lemma ScheduleSettles(w: World)
    ensures Settled(Schedule(w)) == Settled(w)
  {
  }

  lemma EditSettles(w: World, edit: Option<Edit>)
    ensures Settled(ApplyEdit(w, edit)) == Settled(w)
  {
    hide Rejection; hide Edited;
    if edit.None? || Rejection(w.server.session, edit.value).Some? {
      AnsweredConcat(w.written, [LogMessage]);
      AnsweredOne(LogMessage);
      return;
    }
    hide Answered; hide Waiting;
    InvalidateSettles(w.(server := w.server.(session := Edited(w.server.session, edit.value))));
  }

  lemma AskSettles(w: World, id: RequestId, kind: QueryKind, p: Params)
    ensures Settled(Ask(w, id, kind, p)) == Settled(w) + multiset{id}
  {
    hide QueryOk; hide Schedule; hide Settled; hide Reply;
    if !QueryOk(w.server.session, kind, p) {
      ReplySettles(w, id, Refused(INVALID_PARAMS));
    } else if IsCurrent(w.server) {
      ReplySettles(w, id, Answer(kind, p, w.server.latest.value));
    } else {
      QueueSettles(w, PendingQuery(id, p, IdOf(w.server.session), kind));
    }
  }

  lemma QueueSettles(w: World, q: PendingQuery)
    ensures Settled(Schedule(w.(server := w.server.(pending := w.server.pending + [q])))) == Settled(w) + multiset{q.id}
  {
    hide SnapshotOf; hide Waiting;
    WaitingMore(w.server.pending, q);
  }

  lemma RequestSettles(w: World, id: RequestId, name: string, p: Params)
    ensures Settled(Request(w, id, name, p)) == Settled(w) + multiset{id}
  {
    hide KindOf; hide Ask; hide Settled; hide Reply; hide CancelAll;
    if name == "initialize" {
      var running := w.(server := w.server.(lifecycle := Running));
      ReplySettles(running, id, Capabilities);
      ReplySettles(w, id, Refused(INVALID_REQUEST));
      SamePending(w, running);
    } else if name == "shutdown" {
      var down := w.(server := w.server.(lifecycle := ShutDown));
      SamePending(w, down);
      CancelAllSettles(down);
      ReplySettles(CancelAll(down), id, ShutdownDone);
      ReplySettles(w, id, Refused(INVALID_REQUEST));
    } else if !w.server.lifecycle.Running? {
      ReplySettles(w, id, Refused(NOT_INITIALIZED));
    } else if KindOf(name).Some? {
      AskSettles(w, id, KindOf(name).value, p);
    } else {
      ReplySettles(w, id, Refused(METHOD_NOT_FOUND));
    }
  }

  lemma SamePending(w: World, v: World)
    requires w.written == v.written && w.server.pending == v.server.pending
    ensures Settled(w) == Settled(v)
  {
  }

  lemma HandleSettles(w: World, m: Message)
    ensures Settled(Handle(w, m).0) == Settled(w) + Owes(m)
  {
    match m
    case Unparsable => ReplySettles(w, NullId, Refused(PARSE_ERROR));
    case NotAnObject => ReplySettles(w, NullId, Refused(INVALID_REQUEST));
    case Call(id, isVersion2, name, params) =>
      var to := match id case Some(i) => i case None => NullId;
      if !isVersion2 || name.None? {
        ReplySettles(w, to, Refused(INVALID_REQUEST));
      } else if id.Some? {
        RequestSettles(w, id.value, name.value, params);
      } else {
        NotifySettles(w, name.value, params);
      }
  }

  /* ----- the invariant ----- */

  /** Snapshots on their way, oldest first: finished, being analysed, sent. */
  function InEvents(events: seq<Event>): seq<Snapshot> {
    if events == [] then []
    else
      var last := events[|events| - 1];
      InEvents(events[..|events| - 1]) + (if last.Finished? then [last.analysis.snapshot] else [])
  }

  function InWorker(worker: Worker): seq<Snapshot> {
    if worker.Idle? then [] else [worker.snapshot]
  }

  function InFlight(s: System): seq<Snapshot> {
    InEvents(s.events) + InWorker(s.worker) + s.world.channel
  }

  /** A snapshot of this session, no newer than the current one, and equal to it if as new. */
  ghost predicate Taken(session: Session, x: Snapshot) {
    && x.id.session == session.id && x.id.revision <= session.revision
    && (x.id == IdOf(session) ==> x == SnapshotOf(session))
  }

  ghost predicate Ordered(flight: seq<Snapshot>) {
    forall i, j | 0 <= i < j < |flight| :: flight[i].id.revision <= flight[j].id.revision
  }

  /** What holds between the server and the snapshots in flight. */
  ghost predicate Coordinated(server: ServerState, flight: seq<Snapshot>) {
    && ValidSession(server.session)
    && Ordered(flight) && (forall i | 0 <= i < |flight| :: Taken(server.session, flight[i]))
    && (server.latest.Some? ==> Taken(server.session, server.latest.value))
    && (server.requested.Some? ==>
          && server.requested == Some(IdOf(server.session))
          && flight != [] && flight[|flight| - 1].id == IdOf(server.session))
    && (forall q | q in server.pending :: q.snapshot == IdOf(server.session))
    && (server.pending != [] ==> server.lifecycle.Running? && server.requested.Some? && !IsCurrent(server))
  }

  /** Every answer was computed from the text that was current when it was written. */
  ghost predicate Invariant(s: System) {
    && s.owed == Settled(s.world)
    && Coordinated(s.world.server, InFlight(s))
  }

  lemma ScheduleCoordinated(w: World, before: seq<Snapshot>)
    requires ValidSession(w.server.session) && Ordered(before + w.channel)
    requires forall i | 0 <= i < |before + w.channel| :: Taken(w.server.session, (before + w.channel)[i])
    requires w.server.latest.Some? ==> Taken(w.server.session, w.server.latest.value)
    requires w.server.requested == Some(IdOf(w.server.session)) ==>
               before + w.channel != [] && (before + w.channel)[|before + w.channel| - 1].id == IdOf(w.server.session)
    requires forall q | q in w.server.pending :: q.snapshot == IdOf(w.server.session)
    requires w.server.pending != [] ==> w.server.lifecycle.Running? && !IsCurrent(w.server)
    ensures Coordinated(Schedule(w).server, before + Schedule(w).channel)
    ensures Schedule(w).written == w.written && Schedule(w).server.pending == w.server.pending
  {
    if w.server.requested != Some(IdOf(w.server.session)) {
      assert before + (w.channel + [SnapshotOf(w.server.session)])
          == (before + w.channel) + [SnapshotOf(w.server.session)];
    }
  }

  lemma {:induction false} RetainedCurrent(pending: seq<PendingQuery>, current: SnapshotId)
    ensures forall q | q in Retained(pending, current) :: q.snapshot == current
    ensures (forall q | q in pending :: q.snapshot != current) ==> Retained(pending, current) == []
  {
    if pending != [] {
      RetainedCurrent(pending[..|pending| - 1], current);
      assert forall q | q in pending[..|pending| - 1] :: q in pending;
      assert pending[|pending| - 1] in pending;
    }
  }

  /** After an edit nothing stays pending, and the new text is sent. */
  lemma EditCoordinated(w: World, before: seq<Snapshot>, edit: Edit)
    requires Coordinated(w.server, before + w.channel) && w.server.lifecycle.Running?
    requires Rejection(w.server.session, edit).None?
    ensures Coordinated(ApplyEdit(w, Some(edit)).server, before + ApplyEdit(w, Some(edit)).channel)
  {
    var session := Edited(w.server.session, edit);
    EditedIsValid(w.server.session, edit);
    var w1 := w.(server := w.server.(session := session));
    var w2 := Invalidate(w1);
    assert IdOf(session) != IdOf(w.server.session);
    RetainedCurrent(w.server.pending, IdOf(session));
    assert w2.server.pending == [];
    ScheduleCoordinated(w2, before);
  }

  lemma NotifyCoordinated(w: World, before: seq<Snapshot>, name: string, p: Params)
    requires Coordinated(w.server, before + w.channel)
    ensures Coordinated(Notify(w, name, p).server, before + Notify(w, name, p).channel)
  {
    if w.server.lifecycle.Running? {
      if name == "initialized" {
        ScheduleCoordinated(w, before);
      } else if name == "$/cancelRequest" {
      } else if IsEdit(name) {
        var edit := EditFor(name, p);
        if edit.Some? && Rejection(w.server.session, edit.value).None? { EditCoordinated(w, before, edit.value); }
      }
    }
  }

  lemma AskCoordinated(w: World, before: seq<Snapshot>, id: RequestId, kind: QueryKind, p: Params)
    requires Coordinated(w.server, before + w.channel) && w.server.lifecycle.Running?
    ensures Coordinated(Ask(w, id, kind, p).server, before + Ask(w, id, kind, p).channel)
  {
    hide QueryOk;
    if QueryOk(w.server.session, kind, p) && !IsCurrent(w.server) {
      var q := PendingQuery(id, p, IdOf(w.server.session), kind);
      ScheduleCoordinated(w.(server := w.server.(pending := w.server.pending + [q])), before);
    }
  }

  lemma RequestCoordinated(w: World, before: seq<Snapshot>, id: RequestId, name: string, p: Params)
    requires Coordinated(w.server, before + w.channel)
    ensures Coordinated(Request(w, id, name, p).server, before + Request(w, id, name, p).channel)
  {
    hide KindOf; hide Ask;
    if w.server.lifecycle.Running? && KindOf(name).Some? { AskCoordinated(w, before, id, KindOf(name).value, p); }
  }

  lemma HandleCoordinated(w: World, before: seq<Snapshot>, m: Message)
    requires Coordinated(w.server, before + w.channel)
    ensures Coordinated(Handle(w, m).0.server, before + Handle(w, m).0.channel)
  {
    if m.Call? && m.isVersion2 && m.name.Some? {
      match m.id
      case Some(id) => RequestCoordinated(w, before, id, m.name.value, m.params);
      case None => NotifyCoordinated(w, before, m.name.value, m.params);
    }
  }

  /** Taking the oldest finished analysis. */
  lemma AcceptCoordinated(w: World, x: Snapshot, rest: seq<Snapshot>)
    requires Coordinated(w.server, [x] + rest)
    ensures Coordinated(Accept(w, SnapshotAnalysis(x)).server, rest)
  {
    var flight := [x] + rest;
    assert flight[0] == x && forall i | 0 <= i < |rest| :: rest[i] == flight[i + 1];
    if rest != [] { assert rest[|rest| - 1] == flight[|flight| - 1]; }
  }

  lemma EventsSplit(events: seq<Event>)
    requires events != []
    ensures InEvents(events) == InEvents(events[..1]) + InEvents(events[1..])
    decreases |events|
  {
    if |events| > 1 {
      var n := |events| - 1;
      EventsSplit(events[..n]);
      assert events[..n][..1] == events[..1] && events[..n][1..] == events[1..][..n - 1];
    } else {
      assert events[..1] == events && events[1..] == [];
    }
  }

  /** The first event leaves the flight, if it is a finished analysis. */
  lemma FirstEvent(s: System)
    requires s.events != []
    ensures InFlight(s) == (if s.events[0].Finished? then [s.events[0].analysis.snapshot] else [])
                           + (InEvents(s.events[1..]) + InWorker(s.worker) + s.world.channel)
  {
    EventsSplit(s.events);
    assert s.events[..1] == [s.events[0]] && s.events[..1][..0] == [];
  }

  lemma MainKeeps(s: System)
    requires Invariant(s) && Enabled(s, MainStep)
    ensures Invariant(MainLoop(s))
  {
    hide Coordinated; hide Settled; hide Handle; hide Accept; hide InEvents; hide Owes;
    FirstEvent(s);
    var before := InEvents(s.events[1..]) + InWorker(s.worker);
    match s.events[0]
    case Finished(analysis) =>
      AcceptCoordinated(s.world, analysis.snapshot, before + s.world.channel);
      AcceptSettles(s.world, analysis);
      AcceptKeepsChannel(s.world, analysis);
    case Input(incoming) =>
      assert InFlight(s) == before + s.world.channel;
      if incoming.Got? {
        HandleCoordinated(s.world, before, incoming.message);
        HandleSettles(s.world, incoming.message);
      }
  }

  lemma AcceptKeepsChannel(w: World, completed: SnapshotAnalysis)
    ensures Accept(w, completed).channel == w.channel
  {
  }

  lemma WorkerKeeps(s: System, action: Action)
    requires Invariant(s) && Enabled(s, action)
    requires action.WorkerTake? || action.WorkerCoalesce? || action.WorkerStart? || action.WorkerFinish?
    ensures Invariant(Next(s, action))
  {
    hide Coordinated;
    var t := Next(s, action);
    if action.WorkerCoalesce? {
      var n := |InEvents(s.events)|;
      assert InFlight(t) == InFlight(s)[..n] + InFlight(s)[n + 1..];
      Dropped(s.world.server, InFlight(s), n);
    } else {
      WorkerMoves(s, action);
    }
    hide InFlight;
    assert Settled(t.world) == Settled(s.world);
  }

  /** Coalescing drops a snapshot that is not the last. */
  lemma Dropped(server: ServerState, flight: seq<Snapshot>, n: nat)
    requires Coordinated(server, flight) && n + 1 < |flight|
    ensures Coordinated(server, flight[..n] + flight[n + 1..])
  {
    var rest := flight[..n] + flight[n + 1..];
    assert forall i | 0 <= i < |rest| :: rest[i] == flight[if i < n then i else i + 1];
  }

  /** Otherwise the worker only passes a snapshot on. */
  lemma WorkerMoves(s: System, action: Action)
    requires Enabled(s, action) && (action.WorkerTake? || action.WorkerStart? || action.WorkerFinish?)
    ensures InFlight(Next(s, action)) == InFlight(s)
  {
    if action.WorkerFinish? { assert Next(s, action).events[..|s.events|] == s.events; }
  }

  lemma StepKeeps(s: System, action: Action)
    requires Invariant(s) && Enabled(s, action)
    ensures Invariant(Next(s, action))
  {
    match action
    case MainStep => MainKeeps(s);
    case ReaderStep =>
      var t := Next(s, action);
      assert t.events[..|s.events|] == s.events && InEvents(t.events) == InEvents(s.events);
      assert InFlight(t) == InFlight(s);
    case _ => WorkerKeeps(s, action);
  }

  lemma {:induction false} ExecutionKeeps(states: seq<System>, actions: seq<Action>, i: nat)
    requires IsExecution(states, actions) && i < |states|
    ensures Invariant(states[i])
    decreases i
  {
    if i > 0 {
      ExecutionKeeps(states, actions, i - 1);
      StepKeeps(states[i - 1], actions[i - 1]);
      assert states[i - 1 + 1] == Next(states[i - 1], actions[i - 1]);
    }
  }

  /* ----- what the invariant is worth ----- */

  /** Every request handled so far is answered once or waiting: none is lost, none answered twice. */
  lemma RequestsAreConserved(states: seq<System>, actions: seq<Action>, i: nat)
    requires IsExecution(states, actions) && i < |states|
    ensures states[i].owed == Answered(states[i].world.written) + Waiting(states[i].world.server.pending)
  {
    ExecutionKeeps(states, actions, i);
  }

  /** No lost wakeup: while a query waits, the text it asks about is on its way to the main loop. */
  lemma NoLostWakeup(states: seq<System>, actions: seq<Action>, i: nat)
    requires IsExecution(states, actions) && i < |states|
    ensures forall q | q in states[i].world.server.pending :: q.snapshot == IdOf(states[i].world.server.session)
    ensures states[i].world.server.pending != [] ==> SnapshotOf(states[i].world.server.session) in InFlight(states[i])
  {
    ExecutionKeeps(states, actions, i);
    var flight := InFlight(states[i]);
    if states[i].world.server.pending != [] { assert flight[|flight| - 1] in flight; }
  }

  /** A shut-down server keeps nobody waiting. */
  lemma ShutdownLeavesNothing(states: seq<System>, actions: seq<Action>, i: nat)
    requires IsExecution(states, actions) && i < |states| && states[i].world.server.lifecycle.ShutDown?
    ensures states[i].owed == Answered(states[i].world.written)
  {
    ExecutionKeeps(states, actions, i);
  }

  /* ----- answers are about the current text ----- */

  ghost predicate FreshReply(session: Session, o: Output) {
    && (o.Response? && o.outcome.Answer? ==> o.outcome.from == SnapshotOf(session))
    && (o.Diagnostics? ==> o.snapshot == IdOf(session))
  }

  lemma {:induction false} AnswersFresh(server: ServerState, pending: seq<PendingQuery>, from: Snapshot)
    requires from == SnapshotOf(server.session)
    ensures forall o | o in Answers(pending, from) :: FreshReply(server.session, o)
    ensures (forall q | q in pending :: q.snapshot == from.id) ==>
              forall o | o in Answers(pending, from) :: o.Response? && o.outcome.Answer?
  {
    if pending != [] {
      AnswersFresh(server, pending[..|pending| - 1], from);
      assert pending[|pending| - 1] in pending && forall q | q in pending[..|pending| - 1] :: q in pending;
    }
  }

  lemma {:induction false} PublishedFresh(session: Session, documents: seq<SnapshotDocument>)
    ensures forall o | o in Published(IdOf(session), documents) :: FreshReply(session, o)
  {
    if documents != [] { PublishedFresh(session, documents[..|documents| - 1]); }
  }

  lemma {:induction false} RefusalsFresh(session: Session, pending: seq<PendingQuery>, code: int)
    ensures forall o | o in Refusals(pending, code) :: FreshReply(session, o)
  {
    if pending != [] { RefusalsFresh(session, pending[..|pending| - 1], code); }
  }

  /** Whatever one step of the main loop writes is about the text as it is after the step. */
  ghost predicate WritesFresh(w: World, w': World) {
    && |w.written| <= |w'.written| && w'.written[..|w.written|] == w.written
    && forall k | |w.written| <= k < |w'.written| :: FreshReply(w'.server.session, w'.written[k])
  }

  lemma ReplyFresh(w: World, id: RequestId, outcome: Outcome)
    requires outcome.Answer? ==> outcome.from == SnapshotOf(w.server.session)
    ensures WritesFresh(w, Reply(w, id, outcome))
  {
  }

  lemma NotifyFresh(w: World, name: string, p: Params)
    ensures WritesFresh(w, Notify(w, name, p))
  {
    hide EditFor; hide IsEdit; hide SnapshotOf; hide Rejection; hide Edited;
    if w.server.lifecycle.Running? && IsEdit(name) {
      var edit := EditFor(name, p);
      if edit.Some? {
        var session := Edited(w.server.session, edit.value);
        RefusalsFresh(session, Superseded(w.server.pending, IdOf(session)), CONTENT_MODIFIED);
      }
    }
  }

  lemma RequestFresh(w: World, flight: seq<Snapshot>, id: RequestId, name: string, p: Params)
    requires Coordinated(w.server, flight)
    ensures WritesFresh(w, Request(w, id, name, p))
  {
    hide KindOf; hide Ask; hide Coordinated; hide WritesFresh; hide Reply;
    if name == "initialize" {
      RunningFresh(w, id);
      ReplyFresh(w, id, Refused(INVALID_REQUEST));
      return;
    }
    if name == "shutdown" {
      ShutdownFresh(w, id);
      ReplyFresh(w, id, Refused(INVALID_REQUEST));
      return;
    }
    if !w.server.lifecycle.Running? {
      ReplyFresh(w, id, Refused(NOT_INITIALIZED));
      return;
    }
    if KindOf(name).Some? { AskFresh(w, flight, id, KindOf(name).value, p); }
    ReplyFresh(w, id, Refused(METHOD_NOT_FOUND));
  }

  lemma RunningFresh(w: World, id: RequestId)
    ensures WritesFresh(w, Reply(w.(server := w.server.(lifecycle := Running)), id, Capabilities))
  {
  }

  lemma ShutdownFresh(w: World, id: RequestId)
    ensures WritesFresh(w, Reply(CancelAll(w.(server := w.server.(lifecycle := ShutDown))), id, ShutdownDone))
  {
    hide SnapshotOf;
    RefusalsFresh(w.server.session, w.server.pending, CANCELLED);
  }

  lemma AskFresh(w: World, flight: seq<Snapshot>, id: RequestId, kind: QueryKind, p: Params)
    requires Coordinated(w.server, flight)
    ensures WritesFresh(w, Ask(w, id, kind, p))
  {
    hide QueryOk;
    assert IsCurrent(w.server) ==> w.server.latest.value == SnapshotOf(w.server.session);
    hide Coordinated; hide SnapshotOf;
  }

  lemma HandleFresh(w: World, flight: seq<Snapshot>, m: Message)
    requires Coordinated(w.server, flight)
    ensures WritesFresh(w, Handle(w, m).0)
  {
    hide Notify; hide Request;
    if m.Call? && m.isVersion2 && m.name.Some? {
      match m.id
      case Some(id) => RequestFresh(w, flight, id, m.name.value, m.params);
      case None => NotifyFresh(w, m.name.value, m.params);
    }
  }

  lemma AcceptFresh(w: World, x: Snapshot, rest: seq<Snapshot>)
    requires Coordinated(w.server, [x] + rest)
    ensures WritesFresh(w, Accept(w, SnapshotAnalysis(x)))
    ensures x.id == IdOf(w.server.session) ==>
              forall o | o in Answers(w.server.pending, x) :: o.Response? && o.outcome.Answer?
  {
    assert ([x] + rest)[0] == x;
    if x.id == IdOf(w.server.session) {
      PublishedFresh(w.server.session, x.documents);
      AnswersFresh(w.server, w.server.pending, x);
    }
  }

  /** Every answer and every diagnostic ever written was computed from the text current at that moment. */
  lemma AnswersAreCurrent(states: seq<System>, actions: seq<Action>, i: nat)
    requires IsExecution(states, actions) && i < |actions|
    ensures WritesFresh(states[i].world, states[i + 1].world)
  {
    ExecutionKeeps(states, actions, i);
    var s := states[i];
    if actions[i].MainStep? {
      FirstEvent(s);
      match s.events[0]
      case Finished(analysis) =>
        var rest := InEvents(s.events[1..]) + InWorker(s.worker) + s.world.channel;
        AcceptFresh(s.world, analysis.snapshot, rest);
      case Input(Got(m)) => HandleFresh(s.world, InFlight(s), m);
      case _ =>
    }
  }

  lemma {:induction false} AllAnswered(pending: seq<PendingQuery>, from: Snapshot)
    requires forall q | q in pending :: q.snapshot == from.id
    ensures |Answers(pending, from)| == |pending|
    ensures forall k | 0 <= k < |pending| ::
              Answers(pending, from)[k] == Response(pending[k].id, Answer(pending[k].kind, pending[k].params, from))
  {
    if pending != [] {
      assert pending[|pending| - 1] in pending && forall q | q in pending[..|pending| - 1] :: q in pending;
      AllAnswered(pending[..|pending| - 1], from);
    }
  }

  /**
   The current text is published, one document after the other, and then every query that
   waited is answered from it, in order. Nothing else is written.
   */
  ghost predicate AnsweredAll(w: World, w': World) {
    var from := SnapshotOf(w.server.session);
    var m, n := |w.written|, |w.written| + |from.documents|;
    && w'.server.pending == [] && w'.server.latest == Some(from) && w'.server.session == w.server.session
    && |w'.written| == n + |w.server.pending| && w'.written[..m] == w.written
    && (forall k | 0 <= k < |from.documents| ::
          w'.written[m + k] == Diagnostics(from.id, from.documents[k].path, from.documents[k].version))
    && forall k | 0 <= k < |w.server.pending| ::
         var q := w.server.pending[k];
         w'.written[n + k] == Response(q.id, Answer(q.kind, q.params, from))
  }

  lemma {:induction false} PublishedListed(id: SnapshotId, documents: seq<SnapshotDocument>)
    ensures |Published(id, documents)| == |documents|
    ensures forall k | 0 <= k < |documents| ::
              Published(id, documents)[k] == Diagnostics(id, documents[k].path, documents[k].version)
  {
    if documents != [] { PublishedListed(id, documents[..|documents| - 1]); }
  }

  lemma AcceptWrites(w: World, x: Snapshot)
    requires x.id == IdOf(w.server.session)
    ensures Accept(w, SnapshotAnalysis(x)).server.pending == []
    ensures Accept(w, SnapshotAnalysis(x)).written
         == (w.written + Published(x.id, x.documents)) + Answers(w.server.pending, x)
  {
    hide Published; hide Answers;
    assert AcceptAnalysis(w.server.session, SnapshotAnalysis(x)).Some?;
  }

  lemma AcceptTakes(w: World, x: Snapshot)
    requires x.id == IdOf(w.server.session)
    ensures Accept(w, SnapshotAnalysis(x)).server.latest == Some(x)
    ensures Accept(w, SnapshotAnalysis(x)).server.session == w.server.session
  {
  }

  lemma AnswersBehind(w: World, w': World, from: Snapshot)
    requires w'.written == (w.written + Published(from.id, from.documents)) + Answers(w.server.pending, from)
    requires w'.server.pending == [] && from == SnapshotOf(w.server.session) && w'.server.latest == Some(from)
    requires w'.server.session == w.server.session
    requires forall q | q in w.server.pending :: q.snapshot == from.id
    ensures AnsweredAll(w, w')
  {
    hide SnapshotOf; hide Answers; hide AnswerOne; hide Published;
    AllAnswered(w.server.pending, from);
    PublishedListed(from.id, from.documents);
  }

  /** A result for an earlier text is dropped. */
  lemma StaleArrivalIgnored(states: seq<System>, actions: seq<Action>, i: nat)
    requires IsExecution(states, actions) && i < |actions| && actions[i].MainStep?
    requires states[i].events[0].Finished?
    requires states[i].events[0].analysis.snapshot.id != SnapshotOf(states[i].world.server.session).id
    ensures var w, w' := states[i].world, states[i + 1].world;
            w'.written == w.written && w'.channel == w.channel && w'.server == w.server
  {
    ExecutionKeeps(states, actions, i);
    assert states[i + 1] == Next(states[i], actions[i]);
    var s := states[i];
    assert IdOf(s.world.server.session) == SnapshotOf(s.world.server.session).id;
    hide SnapshotOf; hide InFlight;
  }

  lemma OldestIsTaken(server: ServerState, x: Snapshot, rest: seq<Snapshot>)
    requires Coordinated(server, [x] + rest)
    ensures x.id == IdOf(server.session) ==> x == SnapshotOf(server.session)
    ensures forall q | q in server.pending :: q.snapshot == IdOf(server.session)
  {
    hide SnapshotOf;
    assert ([x] + rest)[0] == x;
  }

  lemma CurrentArrival(w: World, x: Snapshot, rest: seq<Snapshot>)
    requires Coordinated(w.server, [x] + rest) && x.id == IdOf(w.server.session)
    ensures AnsweredAll(w, Accept(w, SnapshotAnalysis(x)))
  {
    hide *;
    AcceptWrites(w, x);
    AcceptTakes(w, x);
    OldestIsTaken(w.server, x, rest);
    AnswersBehind(w, Accept(w, SnapshotAnalysis(x)), x);
  }

  /**
   When a current analysis arrives, every waiting query is answered from the current text: the
   content-modified refusal on that path is never taken.
   */
  lemma ArrivalAnswersAll(states: seq<System>, actions: seq<Action>, i: nat)
    requires IsExecution(states, actions) && i < |actions| && actions[i].MainStep?
    requires states[i].events[0].Finished?
    requires AcceptAnalysis(states[i].world.server.session, states[i].events[0].analysis).Some?
    ensures AnsweredAll(states[i].world, states[i + 1].world)
  {
    ExecutionKeeps(states, actions, i);
    assert states[i + 1] == Next(states[i], actions[i]);
    hide AnsweredAll; hide Accept; hide Coordinated; hide InEvents;
    FirstEvent(states[i]);
    var s := states[i];
    var x := s.events[0].analysis.snapshot;
    CurrentArrival(s.world, x, InEvents(s.events[1..]) + InWorker(s.worker) + s.world.channel);
  }

  /* ----- every query is answered in the end ----- */

  function Inputs(events: seq<Event>): nat {
    if events == [] then 0
    else Inputs(events[..|events| - 1]) + (if events[|events| - 1].Input? then 1 else 0)
  }

  function Phase(worker: Worker): nat {
    match worker case Idle => 0 case Analysing(_) => 2 case Holding(_) => 3
  }

  /** What is left to do when no more input arrives: an input sends one snapshot at most. */
  function Work(s: System): nat { 4 * Inputs(s.events) + 4 * |s.world.channel| + Phase(s.worker) + |s.events| }

  lemma {:induction false} InputsSplit(events: seq<Event>)
    requires events != []
    ensures Inputs(events) == Inputs(events[1..]) + (if events[0].Input? then 1 else 0)
    decreases |events|
  {
    if |events| > 1 {
      var n := |events| - 1;
      InputsSplit(events[..n]);
      assert events[..n][1..] == events[1..][..n - 1];
    } else {
      assert events[1..] == [] && events[..0] == [];
    }
  }

  lemma HandleSendsOne(w: World, m: Message)
    ensures |Handle(w, m).0.channel| <= |w.channel| + 1
  {
    hide KindOf; hide EditFor; hide IsEdit; hide Rejection; hide Edited; hide QueryOk; hide SnapshotOf;
  }

  /** Without further input, every step of the worker and the main loop uses up work. */
  lemma WorkFalls(s: System, action: Action)
    requires Enabled(s, action) && !action.ReaderStep?
    ensures Work(Next(s, action)) < Work(s)
  {
    hide Handle; hide Accept;
    if action.MainStep? {
      InputsSplit(s.events);
      match s.events[0]
      case Finished(analysis) => AcceptKeepsChannel(s.world, analysis);
      case Input(Got(m)) => HandleSendsOne(s.world, m);
      case _ =>
    } else if action.WorkerFinish? {
      assert Next(s, action).events[..|s.events|] == s.events;
    }
  }

  /** Nothing but the reader could move. */
  predicate AtRest(s: System) {
    && !Enabled(s, MainStep) && !Enabled(s, WorkerTake) && !Enabled(s, WorkerCoalesce)
    && !Enabled(s, WorkerStart) && !Enabled(s, WorkerFinish)
  }

  /** At rest, a server that still runs keeps nobody waiting. */
  lemma QuietMeansAnswered(states: seq<System>, actions: seq<Action>, i: nat)
    requires IsExecution(states, actions) && i < |states| && states[i].ended.None? && AtRest(states[i])
    ensures states[i].world.server.pending == [] && states[i].owed == Answered(states[i].world.written)
  {
    ExecutionKeeps(states, actions, i);
    assert InFlight(states[i]) == [];
  }

  lemma {:induction false} ContinuationBounded(states: seq<System>, actions: seq<Action>, i: nat, j: nat)
    requires IsExecution(states, actions) && i <= j < |states|
    requires forall k | i <= k < j :: actions[k] != ReaderStep
    ensures j - i + Work(states[j]) <= Work(states[i])
    decreases j
  {
    if i < j {
      ContinuationBounded(states, actions, i, j - 1);
      assert states[j - 1 + 1] == Next(states[j - 1], actions[j - 1]);
      WorkFalls(states[j - 1], actions[j - 1]);
    }
  }

  /**
   Every query is answered in the end. Once no more input arrives, an execution goes on for
   a bounded number of steps; where it cannot go on, everything is answered, unless the
   server has ended.
   */
  lemma InputFreeRunsSettle(states: seq<System>, actions: seq<Action>, i: nat)
    requires IsExecution(states, actions) && i < |states|
    requires forall k | i <= k < |actions| :: actions[k] != ReaderStep
    ensures |actions| - i <= Work(states[i])
    ensures var last := states[|actions|];
            AtRest(last) && last.ended.None? ==>
              last.world.server.pending == [] && last.owed == Answered(last.world.written)
  {
    ContinuationBounded(states, actions, i, |actions|);
    if AtRest(states[|actions|]) && states[|actions|].ended.None? {
      QuietMeansAnswered(states, actions, |actions|);
    }
  }
}
