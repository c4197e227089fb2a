/**
 What a client sees. The life cycle is read off the messages handled so far, and for every
 message of every execution it is said what is answered, under which code, and what becomes
 of the session and of the queries that wait.
 */
module ServerLife {
  import opened Wrappers
  import opened WorkspaceSessions
  import opened LanguageServers
  import opened ServerSystem

  /* ----- messages ----- */

  predicate IsRequest(m: Message, name: string) {
    m.Call? && m.isVersion2 && m.name == Some(name) && m.id.Some?
  }

  predicate IsNotice(m: Message, name: string) {
    m.Call? && m.isVersion2 && m.name == Some(name) && m.id.None?
  }

  const QUERIES: map<string, QueryKind> := map[
    "textDocument/semanticTokens/full" := SemanticTokens, "textDocument/definition" := Definition,
    "textDocument/references" := References, "textDocument/hover" := Hover,
    "textDocument/prepareRename" := PrepareRename, "textDocument/rename" := Rename]

  /** The main loop handles message `m` in step `i`. */
  ghost predicate Handles(states: seq<System>, actions: seq<Action>, i: nat, m: Message) {
    && IsExecution(states, actions) && i < |actions| && actions[i].MainStep?
    && states[i].events[0] == Input(Got(m))
  }

  /** The messages handled in the first `n` steps. */
  function Handled(states: seq<System>, actions: seq<Action>, n: nat): seq<Message>
    requires n <= |states| && n <= |actions|
  {
    if n == 0 then []
    else
      var before, events := Handled(states, actions, n - 1), states[n - 1].events;
      if actions[n - 1].MainStep? && events != [] && events[0].Input? && events[0].incoming.Got?
      then before + [events[0].incoming.message] else before
  }

  /** An initialize request was handled. */
  ghost predicate Started(ms: seq<Message>) {
    exists i :: 0 <= i < |ms| && IsRequest(ms[i], "initialize")
  }

  /** A shutdown request was handled after an initialize request. */
  ghost predicate Stopped(ms: seq<Message>) {
    exists i, k :: 0 <= i < k < |ms| && IsRequest(ms[i], "initialize") && IsRequest(ms[k], "shutdown")
  }

  lemma StartedMore(ms: seq<Message>, m: Message)
    ensures Started(ms + [m]) <==> Started(ms) || IsRequest(m, "initialize")
  {
    if Started(ms) {
      var i :| 0 <= i < |ms| && IsRequest(ms[i], "initialize");
      assert (ms + [m])[i] == ms[i];
    }
    assert (ms + [m])[|ms|] == m;
  }

  lemma StoppedMore(ms: seq<Message>, m: Message)
    ensures Stopped(ms + [m]) <==> Stopped(ms) || (Started(ms) && IsRequest(m, "shutdown"))
  {
    var more := ms + [m];
    assert more[|ms|] == m && forall i | 0 <= i < |ms| :: more[i] == ms[i];
    if Stopped(ms) {
      var i, k :| 0 <= i < k < |ms| && IsRequest(ms[i], "initialize") && IsRequest(ms[k], "shutdown");
      assert IsRequest(more[i], "initialize") && IsRequest(more[k], "shutdown");
    }
    if Started(ms) && IsRequest(m, "shutdown") {
      var i :| 0 <= i < |ms| && IsRequest(ms[i], "initialize");
      assert IsRequest(more[i], "initialize") && IsRequest(more[|ms|], "shutdown");
    }
  }

  /* ----- the life cycle ----- */

  function LifeAfter(life: Lifecycle, m: Message): Lifecycle {
    if IsRequest(m, "initialize") && life.WaitingForInitialize? then Running
    else if IsRequest(m, "shutdown") && life.Running? then ShutDown
    else life
  }

  lemma NotifyKeepsLife(w: World, name: string, p: Params)
    ensures Notify(w, name, p).server.lifecycle == w.server.lifecycle
  {
    hide EditFor; hide IsEdit; hide Rejection; hide Edited; hide SnapshotOf;
  }

  lemma HandleLife(w: World, m: Message)
    ensures Handle(w, m).0.server.lifecycle == LifeAfter(w.server.lifecycle, m)
  {
    hide KindOf; hide Notify; hide QueryOk; hide SnapshotOf;
    if m.Call? && m.isVersion2 && m.name.Some? && m.id.None? { NotifyKeepsLife(w, m.name.value, m.params); }
  }

  lemma AcceptKeepsLife(w: World, completed: SnapshotAnalysis)
    ensures Accept(w, completed).server.lifecycle == w.server.lifecycle
  {
  }

  /** What the life cycle is, in terms of the messages handled so far. */
  ghost predicate LifeOf(ms: seq<Message>, life: Lifecycle) {
    life == if Stopped(ms) then ShutDown else if Started(ms) then Running else WaitingForInitialize
  }

  /** The server runs exactly when an initialize request was handled and no shutdown request after it. */
  lemma {:induction false} LifecycleDecided(states: seq<System>, actions: seq<Action>, n: nat)
    requires IsExecution(states, actions) && n < |states|
    ensures LifeOf(Handled(states, actions, n), states[n].world.server.lifecycle)
    decreases n
  {
    if n == 0 { return; }
    LifecycleDecided(states, actions, n - 1);
    var s, ms := states[n - 1], Handled(states, actions, n - 1);
    assert Enabled(s, actions[n - 1]) && states[n - 1 + 1] == Next(s, actions[n - 1]);
    hide IsExecution; hide Handle; hide Accept; hide Started; hide Stopped;
    if actions[n - 1].MainStep? {
      match s.events[0] {
        case Finished(analysis) => AcceptKeepsLife(s.world, analysis);
        case Input(Got(m)) =>
          HandleLife(s.world, m);
          StartedMore(ms, m);
          StoppedMore(ms, m);
          StoppedWasStarted(ms);
        case _ =>
      }
    }
  }

  lemma StoppedWasStarted(ms: seq<Message>)
    ensures Stopped(ms) ==> Started(ms)
  {
  }

  /* ----- replies ----- */

  /** The step writes exactly this. */
  ghost predicate Writes(w: World, w': World, more: seq<Output>) { w'.written == w.written + more }

  lemma HandledStep(states: seq<System>, actions: seq<Action>, i: nat, m: Message)
    requires Handles(states, actions, i, m)
    ensures i + 1 < |states| == |actions| + 1 && Invariant(states[i])
    ensures states[i + 1].world == Handle(states[i].world, m).0
    ensures states[i + 1].ended == match Handle(states[i].world, m).1 case Some(c) => Some(Exited(c)) case None => None
    ensures LifeOf(Handled(states, actions, i), states[i].world.server.lifecycle)
  {
    LifecycleDecided(states, actions, i);
    ExecutionKeeps(states, actions, i);
    assert states[i + 1] == Next(states[i], actions[i]);
    hide Handle; hide LifeOf; hide Invariant;
  }

  /** The first initialize request is answered with the capabilities, every later one is refused. */
  lemma InitializeOnce(states: seq<System>, actions: seq<Action>, i: nat, m: Message)
    requires Handles(states, actions, i, m) && IsRequest(m, "initialize")
    ensures Writes(states[i].world, states[i + 1].world,
                   [Response(m.id.value,
                             if Started(Handled(states, actions, i)) then Refused(-32600) else Capabilities)])
  {
    HandledStep(states, actions, i, m);
    StoppedWasStarted(Handled(states, actions, i));
    hide IsExecution; hide Started; hide Stopped;
  }

  /** A shutdown cancels everything that waits, in order, and then says so; otherwise it is refused. */
  lemma ShutdownCancels(states: seq<System>, actions: seq<Action>, i: nat, m: Message)
    requires Handles(states, actions, i, m) && IsRequest(m, "shutdown")
    ensures var w, w', ms := states[i].world, states[i + 1].world, Handled(states, actions, i);
            if Started(ms) && !Stopped(ms) then
              && AllRefused(w, w', -32800) && |w'.written| == |w.written| + |w.server.pending| + 1
              && w'.written[|w'.written| - 1] == Response(m.id.value, ShutdownDone)
            else Writes(w, w', [Response(m.id.value, Refused(-32600))])
  {
    hide *;
    HandledStep(states, actions, i, m);
    LifeCases(Handled(states, actions, i), states[i].world.server.lifecycle);
    ShutdownStep(states[i].world, m);
  }

  /** What waited is refused with this code, in order, and nothing waits any more. */
  ghost predicate AllRefused(w: World, w': World, code: int) {
    && w'.server.pending == [] && |w'.written| >= |w.written| + |w.server.pending|
    && w'.written[..|w.written|] == w.written
    && forall k | 0 <= k < |w.server.pending| ::
         w'.written[|w.written| + k] == Response(w.server.pending[k].id, Refused(code))
  }

  lemma ShutdownStep(w: World, m: Message)
    requires IsRequest(m, "shutdown")
    ensures var w' := Handle(w, m).0;
            if w.server.lifecycle.Running? then
              && AllRefused(w, w', -32800) && |w'.written| == |w.written| + |w.server.pending| + 1
              && w'.written[|w'.written| - 1] == Response(m.id.value, ShutdownDone)
            else Writes(w, w', [Response(m.id.value, Refused(-32600))])
  {
    hide Refusals;
    RefusalsListed(w.server.pending, CANCELLED);
  }

  lemma {:induction false} RefusalsListed(pending: seq<PendingQuery>, code: int)
    ensures |Refusals(pending, code)| == |pending|
    ensures forall k | 0 <= k < |pending| :: Refusals(pending, code)[k] == Response(pending[k].id, Refused(code))
  {
    if pending != [] { RefusalsListed(pending[..|pending| - 1], code); }
  }

  /** The parameters a query needs, with a document that the session has. */
  ghost predicate GoodParams(s: Session, kind: QueryKind, p: Params) {
    && p.path.Some? && (exists d :: d in SnapshotOf(s).documents && d.path == p.path.value)
    && (p.position.Some? || kind == SemanticTokens)
    && (p.newName.Some? || kind != Rename)
  }

  /** The current text is sent to be analysed, once. */
  ghost predicate Sends(w: World, w': World) {
    var current := SnapshotOf(w.server.session);
    && w'.channel == (if w.server.requested == Some(current.id) then w.channel else w.channel + [current])
    && w'.server.requested == Some(current.id)
  }

  /** Answered at once if the current text has been analysed, else kept until it is. */
  ghost predicate Taken(w: World, w': World, id: RequestId, kind: QueryKind, p: Params) {
    var current := SnapshotOf(w.server.session);
    if w.server.latest == Some(current) then
      Writes(w, w', [Response(id, Answer(kind, p, current))]) && w'.server == w.server && w'.channel == w.channel
    else
      && Writes(w, w', []) && Sends(w, w')
      && w'.server.pending == w.server.pending + [PendingQuery(id, p, current.id, kind)]
  }

  /**
   While the server runs, a query with good parameters is answered or waits, and is never
   refused on arrival; with other parameters it is refused as such, and before and after as
   well.
   */
  lemma QueryTaken(states: seq<System>, actions: seq<Action>, i: nat, m: Message)
    requires Handles(states, actions, i, m) && m.Call? && m.name.Some? && m.name.value in QUERIES
    requires IsRequest(m, m.name.value)
    ensures var w, w', ms := states[i].world, states[i + 1].world, Handled(states, actions, i);
            var kind := QUERIES[m.name.value];
            if !Started(ms) || Stopped(ms) then Writes(w, w', [Response(m.id.value, Refused(-32002))])
            else if !GoodParams(w.server.session, kind, m.params) then
              Writes(w, w', [Response(m.id.value, Refused(-32602))])
            else Taken(w, w', m.id.value, kind, m.params)
  {
    hide *;
    HandledStep(states, actions, i, m);
    QueryStep(states[i], m);
    LifeCases(Handled(states, actions, i), states[i].world.server.lifecycle);
  }

  lemma LifeCases(ms: seq<Message>, life: Lifecycle)
    requires LifeOf(ms, life)
    ensures life.Running? <==> Started(ms) && !Stopped(ms)
  {
    StoppedWasStarted(ms);
  }

  lemma QueryNamed(name: string)
    requires name in QUERIES
    ensures KindOf(name) == Some(QUERIES[name]) && name != "initialize" && name != "shutdown" && name != "exit"
  {
  }

  lemma QueryStep(s: System, m: Message)
    requires Invariant(s) && m.Call? && m.name.Some? && m.name.value in QUERIES && IsRequest(m, m.name.value)
    ensures var w, w', kind := s.world, Handle(s.world, m).0, QUERIES[m.name.value];
            if !w.server.lifecycle.Running? then Writes(w, w', [Response(m.id.value, Refused(-32002))])
            else if !GoodParams(w.server.session, kind, m.params) then
              Writes(w, w', [Response(m.id.value, Refused(-32602))])
            else Taken(w, w', m.id.value, kind, m.params)
  {
    QueryNamed(m.name.value);
    hide KindOf; hide Ask; hide Coordinated; hide InFlight; hide Taken; hide GoodParams;
    AskTaken(s.world, InFlight(s), m.id.value, QUERIES[m.name.value], m.params);
  }

  lemma AskTaken(w: World, flight: seq<Snapshot>, id: RequestId, kind: QueryKind, p: Params)
    requires Coordinated(w.server, flight)
    ensures if GoodParams(w.server.session, kind, p) then Taken(w, Ask(w, id, kind, p), id, kind, p)
            else Writes(w, Ask(w, id, kind, p), [Response(id, Refused(-32602))])
  {
    GoodIsOk(w.server.session, kind, p);
    assert IsCurrent(w.server) ==> w.server.latest.value == SnapshotOf(w.server.session);
    assert IdOf(w.server.session) == SnapshotOf(w.server.session).id;
    hide Coordinated; hide GoodParams; hide QueryOk; hide SnapshotOf;
    assert w.written + [] == w.written;
  }

  lemma GoodIsOk(s: Session, kind: QueryKind, p: Params)
    ensures GoodParams(s, kind, p) <==> QueryOk(s, kind, p)
  {
    if p.path.Some? {
      var documents := SnapshotOf(s).documents;
      assert (exists d :: d in documents && d.path == p.path.value) <==> HasDocument(documents, p.path.value);
    }
  }

  /** Any other request is unknown, or comes at the wrong time. */
  lemma UnknownRefused(states: seq<System>, actions: seq<Action>, i: nat, m: Message)
    requires Handles(states, actions, i, m) && m.Call? && m.name.Some? && m.name.value !in QUERIES
    requires IsRequest(m, m.name.value) && m.name.value != "initialize" && m.name.value != "shutdown"
    ensures var ms := Handled(states, actions, i);
            Writes(states[i].world, states[i + 1].world,
                   [Response(m.id.value, Refused(if Started(ms) && !Stopped(ms) then -32601 else -32002))])
  {
    hide *;
    HandledStep(states, actions, i, m);
    LifeCases(Handled(states, actions, i), states[i].world.server.lifecycle);
    UnknownStep(states[i].world, m);
  }

  lemma UnknownStep(w: World, m: Message)
    requires m.Call? && m.name.Some? && m.name.value !in QUERIES && IsRequest(m, m.name.value)
    requires m.name.value != "initialize" && m.name.value != "shutdown"
    ensures Writes(w, Handle(w, m).0,
                   [Response(m.id.value, Refused(if w.server.lifecycle.Running? then -32601 else -32002))])
  {
    assert KindOf(m.name.value) == None;
    hide KindOf;
  }

  /** What is no call at all is refused, under its own identity if it has one. */
  lemma MalformedRefused(states: seq<System>, actions: seq<Action>, i: nat, m: Message)
    requires Handles(states, actions, i, m) && (m.Call? ==> !m.isVersion2 || m.name.None?)
    ensures Writes(states[i].world, states[i + 1].world, [
              if m.Unparsable? then Response(NullId, Refused(-32700))
              else Response(if m.Call? && m.id.Some? then m.id.value else NullId, Refused(-32600))])
    ensures states[i + 1].world.server == states[i].world.server
  {
    HandledStep(states, actions, i, m);
    hide IsExecution; hide Request; hide Notify;
  }

  /** The exit code says whether the server was shut down before. */
  lemma ExitCode(states: seq<System>, actions: seq<Action>, i: nat, m: Message)
    requires Handles(states, actions, i, m)
    ensures states[i + 1].ended.Some? <==> IsNotice(m, "exit")
    ensures IsNotice(m, "exit") ==>
              && states[i + 1].world == states[i].world
              && states[i + 1].ended == Some(Exited(if Stopped(Handled(states, actions, i)) then 0 else 1))
  {
    HandledStep(states, actions, i, m);
    hide IsExecution; hide Request; hide Notify; hide Started; hide Stopped;
  }

  /* ----- notifications ----- */

  const EDITS: set<string> := {
    "textDocument/didOpen", "textDocument/didChange", "textDocument/didSave", "textDocument/didClose"}

  /** The session edit that a notification of this name asks for, if its parameters are complete. */
  ghost predicate AsksFor(name: string, p: Params, e: Edit) {
    && p.path == Some(e.path)
    && match e
       case Open(_, version, text) =>
         name == "textDocument/didOpen" && p.version == Some(version) && p.text == Some(text)
       case Change(_, version, text) =>
         && name == "textDocument/didChange" && p.version == Some(version)
         && p.changes == Some([ContentChange(true, false, Some(text))])
       case Close(_) => name == "textDocument/didClose"
       case Save(_, text) => name == "textDocument/didSave" && p.savedText == text
       case UpdateBaseline(_, _) => false
  }

  /** The session after the edit; what waited is refused, and the new text is asked for. */
  ghost predicate EditTaken(w: World, w': World, e: Edit) {
    && w'.server.session == Edited(w.server.session, e)
    && AllRefused(w, w', -32801) && |w'.written| == |w.written| + |w.server.pending|
    && w'.channel == w.channel + [SnapshotOf(w'.server.session)]
  }

  /** While the server runs, each document notification applies exactly the edit of its name. */
  lemma EditApplied(states: seq<System>, actions: seq<Action>, i: nat, m: Message, e: Edit)
    requires Handles(states, actions, i, m) && m.Call? && m.name.Some? && m.name.value in EDITS
    requires IsNotice(m, m.name.value) && AsksFor(m.name.value, m.params, e)
    requires Started(Handled(states, actions, i)) && !Stopped(Handled(states, actions, i))
    ensures var w, w' := states[i].world, states[i + 1].world;
            if Rejection(w.server.session, e).None? then EditTaken(w, w', e)
            else w'.server == w.server && Writes(w, w', [LogMessage])
  {
    hide *;
    HandledStep(states, actions, i, m);
    LifeCases(Handled(states, actions, i), states[i].world.server.lifecycle);
    NoticeOfEdit(states[i], m, e);
  }

  lemma NoticeOfEdit(s: System, m: Message, e: Edit)
    requires Invariant(s) && s.world.server.lifecycle.Running? && m.Call? && m.name.Some? && m.name.value in EDITS
    requires IsNotice(m, m.name.value) && AsksFor(m.name.value, m.params, e)
    ensures var w, w' := s.world, Handle(s.world, m).0;
            if Rejection(w.server.session, e).None? then EditTaken(w, w', e)
            else w'.server == w.server && Writes(w, w', [LogMessage])
  {
    hide Coordinated; hide EditTaken; hide Edited; hide Rejection; hide Invalidate; hide Schedule; hide InFlight;
    EditNamed(m.name.value, m.params, e);
    hide AsksFor; hide EditFor;
    if Rejection(s.world.server.session, e).None? { EditStep(s.world, InFlight(s), e); }
  }

  lemma EditNamed(name: string, p: Params, e: Edit)
    requires name in EDITS && AsksFor(name, p, e)
    ensures IsEdit(name) && EditFor(name, p) == Some(e)
  {
  }

  lemma EditStep(w: World, flight: seq<Snapshot>, e: Edit)
    requires Coordinated(w.server, flight) && Rejection(w.server.session, e).None?
    ensures EditTaken(w, ApplyEdit(w, Some(e)), e)
  {
    var w1 := w.(server := w.server.(session := Edited(w.server.session, e)));
    EditedIsValid(w.server.session, e);
    assert IdOf(w1.server.session) != IdOf(w.server.session);
    hide Edited; hide SnapshotOf; hide Rejection;
    InvalidatesAll(w1, IdOf(w.server.session));
    hide Invalidate; hide Coordinated;
    assert w.server.requested.Some? ==> w.server.requested == Some(IdOf(w.server.session));
  }

  lemma InvalidatesAll(w: World, before: SnapshotId)
    requires before != IdOf(w.server.session) && forall q | q in w.server.pending :: q.snapshot == before
    ensures var w' := Invalidate(w);
            && AllRefused(w, w', -32801) && |w'.written| == |w.written| + |w.server.pending|
            && w'.server == w.server.(pending := []) && w'.channel == w.channel
  {
    forall i | 0 <= i < |w.server.pending| ensures w.server.pending[i].snapshot == before {
      assert w.server.pending[i] in w.server.pending;
    }
    SupersededAll(w.server.pending, before, IdOf(w.server.session));
    RefusalsListed(w.server.pending, CONTENT_MODIFIED);
    hide Refusals; hide Superseded; hide Retained;
  }

  lemma SupersededMore(front: seq<PendingQuery>, last: PendingQuery, before: SnapshotId, current: SnapshotId)
    requires before != current && last.snapshot == before
    ensures Superseded(front + [last], current) == Superseded(front, current) + [last]
    ensures Retained(front + [last], current) == Retained(front, current)
  {
    assert (front + [last])[..|front|] == front;
  }

  lemma {:induction false} SupersededAll(pending: seq<PendingQuery>, before: SnapshotId, current: SnapshotId)
    requires before != current && forall i | 0 <= i < |pending| :: pending[i].snapshot == before
    ensures Superseded(pending, current) == pending && Retained(pending, current) == []
  {
    if pending != [] {
      hide *;
      var front, last := pending[..|pending| - 1], pending[|pending| - 1];
      assert pending == front + [last];
      SupersededAll(front, before, current);
      SupersededMore(front, last, before, current);
    }
  }

  lemma EditAskedFor(name: string, p: Params)
    requires name in EDITS && EditFor(name, p).Some?
    ensures AsksFor(name, p, EditFor(name, p).value) && IsEdit(name)
  {
    if name == "textDocument/didChange" {
      assert p.changes.value == [ContentChange(true, false, p.changes.value[0].text)];
    }
  }

  lemma HandleKeepsText(w: World, m: Message)
    ensures Handle(w, m).0.server.session != w.server.session ==>
              && w.server.lifecycle.Running? && m.Call? && m.name.Some? && IsNotice(m, m.name.value)
              && m.name.value in EDITS && EditFor(m.name.value, m.params).Some?
              && Handle(w, m).0.server.session == Edited(w.server.session, EditFor(m.name.value, m.params).value)
  {
    hide EditFor; hide Rejection; hide Edited; hide KindOf; hide QueryOk; hide SnapshotOf; hide Refusals;
  }

  /** Nothing but such a notification ever changes the session. */
  lemma OnlyEditsChangeText(states: seq<System>, actions: seq<Action>, i: nat)
    requires IsExecution(states, actions) && i < |actions|
    requires states[i + 1].world.server.session != states[i].world.server.session
    ensures exists m, e :: Handles(states, actions, i, m) && m.Call? && m.name.Some? && IsNotice(m, m.name.value)
                           && m.name.value in EDITS && AsksFor(m.name.value, m.params, e)
                           && states[i + 1].world.server.session == Edited(states[i].world.server.session, e)
  {
    var s := states[i];
    assert Enabled(s, actions[i]) && states[i + 1] == Next(s, actions[i]);
    assert actions[i].MainStep?;
    hide IsExecution; hide Handle; hide AsksFor; hide Edited; hide EditFor;
    match s.events[0]
    case Finished(_) => assert false;
    case Input(Got(m)) =>
      HandleKeepsText(s.world, m);
      EditAskedFor(m.name.value, m.params);
      assert Handles(states, actions, i, m);
    case _ =>
  }

  /** A document notification that asks for no edit is logged and changes nothing. */
  lemma IncompleteLogged(states: seq<System>, actions: seq<Action>, i: nat, m: Message)
    requires Handles(states, actions, i, m) && m.Call? && m.name.Some? && m.name.value in EDITS
    requires IsNotice(m, m.name.value) && forall e :: !AsksFor(m.name.value, m.params, e)
    requires Started(Handled(states, actions, i)) && !Stopped(Handled(states, actions, i))
    ensures states[i + 1].world.server == states[i].world.server
    ensures Writes(states[i].world, states[i + 1].world, [LogMessage])
  {
    hide *;
    HandledStep(states, actions, i, m);
    LifeCases(Handled(states, actions, i), states[i].world.server.lifecycle);
    IncompleteStep(states[i].world, m);
  }

  lemma IncompleteStep(w: World, m: Message)
    requires w.server.lifecycle.Running? && m.Call? && m.name.Some? && m.name.value in EDITS
    requires IsNotice(m, m.name.value) && forall e :: !AsksFor(m.name.value, m.params, e)
    ensures Handle(w, m).0.server == w.server && Writes(w, Handle(w, m).0, [LogMessage])
  {
    var name, p := m.name.value, m.params;
    if EditFor(name, p).Some? { EditAskedFor(name, p); }
    hide AsksFor; hide EditFor;
  }

  /** Notifications before and after, and unknown ones, change nothing. */
  lemma OthersIgnored(states: seq<System>, actions: seq<Action>, i: nat, m: Message)
    requires Handles(states, actions, i, m) && m.Call? && m.name.Some? && IsNotice(m, m.name.value)
    requires var ms := Handled(states, actions, i);
             || !Started(ms) || Stopped(ms)
             || (m.name.value !in EDITS && m.name.value !in {"initialized", "$/cancelRequest"})
    ensures states[i + 1].world == states[i].world
  {
    HandledStep(states, actions, i, m);
    hide IsExecution; hide Started; hide Stopped; hide EditFor;
  }

  /** A cancellation refuses the first waiting query of that identity, if there is one. */
  lemma CancelRefusesOne(states: seq<System>, actions: seq<Action>, i: nat, m: Message)
    requires Handles(states, actions, i, m) && IsNotice(m, "$/cancelRequest")
    requires Started(Handled(states, actions, i)) && !Stopped(Handled(states, actions, i))
    ensures var w, w' := states[i].world, states[i + 1].world;
            if m.params.cancelled.Some? && exists q :: q in w.server.pending && q.id == m.params.cancelled.value then
              Cancelled(w, w', m.params.cancelled.value)
            else w' == w
  {
    hide *;
    HandledStep(states, actions, i, m);
    LifeCases(Handled(states, actions, i), states[i].world.server.lifecycle);
    CancelStep(states[i].world, m);
  }

  /** `w` lost its first waiting query of this identity, which is refused as cancelled. */
  ghost predicate Cancelled(w: World, w': World, id: RequestId) {
    && Writes(w, w', [Response(id, Refused(-32800))])
    && exists k :: 0 <= k < |w.server.pending| && w.server.pending[k].id == id
                   && (forall j | 0 <= j < k :: w.server.pending[j].id != id)
                   && w'.server.pending == w.server.pending[..k] + w.server.pending[k + 1..]
  }

  lemma CancelStep(w: World, m: Message)
    requires w.server.lifecycle.Running? && IsNotice(m, "$/cancelRequest")
    ensures var w' := Handle(w, m).0;
            if m.params.cancelled.Some? && exists q :: q in w.server.pending && q.id == m.params.cancelled.value then
              Cancelled(w, w', m.params.cancelled.value)
            else w' == w
  {
    hide FirstWith;
    if m.params.cancelled.Some? {
      var pending, id := w.server.pending, m.params.cancelled.value;
      var k := FirstWith(pending, id);
      if k < |pending| { assert pending[k] in pending && pending[k].id == id; }
    }
  }

  /** After `initialized` the current text is on its way, unless it was asked for already. */
  lemma InitializedRequests(states: seq<System>, actions: seq<Action>, i: nat, m: Message)
    requires Handles(states, actions, i, m) && IsNotice(m, "initialized")
    requires Started(Handled(states, actions, i)) && !Stopped(Handled(states, actions, i))
    ensures var w, w' := states[i].world, states[i + 1].world;
            && Writes(w, w', []) && w'.server == w.server.(requested := Some(SnapshotOf(w.server.session).id))
            && Sends(w, w') && SnapshotOf(w.server.session) in InFlight(states[i + 1])
  {
    hide *;
    HandledStep(states, actions, i, m);
    LifeCases(Handled(states, actions, i), states[i].world.server.lifecycle);
    KeptAfter(states, actions, i, m);
    InitializedStep(states[i].world, m);
    RequestInFlight(states[i + 1]);
  }

  lemma KeptAfter(states: seq<System>, actions: seq<Action>, i: nat, m: Message)
    requires Handles(states, actions, i, m)
    ensures i + 1 < |states| && Invariant(states[i + 1])
  {
    hide Invariant;
    ExecutionKeeps(states, actions, i + 1);
  }

  lemma InitializedStep(w: World, m: Message)
    requires w.server.lifecycle.Running? && IsNotice(m, "initialized")
    ensures var w' := Handle(w, m).0;
            && Writes(w, w', []) && w'.server == w.server.(requested := Some(SnapshotOf(w.server.session).id))
            && w'.server.requested == Some(IdOf(w'.server.session)) && w'.server.session == w.server.session
            && Sends(w, w')
  {
    assert w.written + [] == w.written && SnapshotOf(w.server.session).id == IdOf(w.server.session);
    hide SnapshotOf;
  }

  /** The text asked for is on its way. */
  lemma RequestInFlight(s: System)
    requires Invariant(s) && s.world.server.requested.Some?
    ensures SnapshotOf(s.world.server.session) in InFlight(s)
  {
    hide InFlight; hide SnapshotOf;
    var flight := InFlight(s);
    assert flight[|flight| - 1] in flight;
  }
}
