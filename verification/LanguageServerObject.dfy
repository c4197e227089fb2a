/** The server object: its methods update the fields, write replies and send snapshots. */
module LanguageServerObjects {
  import opened Wrappers
  import opened WorkspaceSessions
  import opened LanguageServers

  class Writer {
    var log: seq<Output>

    method Write(o: Output)
      modifies this
      ensures log == old(log) + [o]
    {
      log := log + [o];
    }
  }

  class Sender {
    var queue: seq<Snapshot>

    method Send(s: Snapshot)
      modifies this
      ensures queue == old(queue) + [s]
    {
      queue := queue + [s];
    }
  }

  class Server {
    const session: WorkspaceSession
    var lifecycle: Lifecycle
    var latestAnalysis: Option<Snapshot>
    var requestedAnalysis: Option<SnapshotId>
    var pendingQueries: seq<PendingQuery>

    ghost function Model(): ServerState
      reads this, session
    {
      ServerState(session.Model(), lifecycle, latestAnalysis, requestedAnalysis, pendingQueries)
    }

    ghost function State(writer: Writer, sender: Sender): World
      reads this, session, writer, sender
    {
      World(Model(), writer.log, sender.queue)
    }

    ghost predicate Valid()
      reads this, session
    {
      session.Valid()
    }

    constructor (workspace: WorkspaceSession)
      requires workspace.Valid()
      ensures Valid() && session == workspace
      ensures Model() == ServerState(workspace.Model(), WaitingForInitialize, None, None, [])
    {
      session := workspace;
      lifecycle, latestAnalysis, requestedAnalysis, pendingQueries := WaitingForInitialize, None, None, [];
    }

    method ScheduleAnalysis(writer: Writer, sender: Sender)
      requires Valid()
      modifies this, sender
      ensures Valid() && State(writer, sender) == Schedule(old(State(writer, sender)))
    {
      var snapshot := session.TakeSnapshot();
      if requestedAnalysis == Some(snapshot.id) { return; }
      requestedAnalysis := Some(snapshot.id);
      sender.Send(snapshot);
    }

    method CancelAllPending(writer: Writer, ghost sender: Sender)
      requires Valid()
      modifies this, writer
      ensures Valid() && State(writer, sender) == CancelAll(old(State(writer, sender)))
    {
      var drained := pendingQueries;
      pendingQueries := [];
      for i := 0 to |drained|
        invariant Valid()
        invariant State(writer, sender) == Put(old(State(writer, sender)).(server := old(Model()).(pending := [])),
                                               Refusals(drained[..i], CANCELLED))
      {
        writer.Write(Response(drained[i].id, Refused(CANCELLED)));
        assert drained[..i + 1][..i] == drained[..i];
      }
      assert drained[..|drained|] == drained;
    }

    method InvalidateSuperseded(writer: Writer, ghost sender: Sender)
      requires Valid()
      modifies this, writer
      ensures Valid() && State(writer, sender) == Invalidate(old(State(writer, sender)))
    {
      var current := session.CurrentId();
      var retained: seq<PendingQuery> := [];
      var drained := pendingQueries;
      ghost var superseded: seq<PendingQuery> := [];
      assert drained[..0] == [] && drained[..|drained|] == drained;
      assert Retained([], current) == [] && Superseded([], current) == [];
      assert writer.log + [] == writer.log;
      assert Refusals([], CONTENT_MODIFIED) == [];
      hide Retained; hide Superseded; hide Refusals;
      for i := 0 to |drained|
        invariant Valid() && Model() == old(Model()) && sender.queue == old(sender.queue)
        invariant retained == Retained(drained[..i], current)
        invariant superseded == Superseded(drained[..i], current)
        invariant writer.log == old(writer.log) + Refusals(superseded, CONTENT_MODIFIED)
      {
        DivideNext(drained, i, current);
        if drained[i].snapshot == current {
          retained := retained + [drained[i]];
        } else {
          writer.Write(Response(drained[i].id, Refused(CONTENT_MODIFIED)));
          RefuseMore(superseded, drained[i], CONTENT_MODIFIED);
          superseded := superseded + [drained[i]];
        }
      }
      pendingQueries := retained;
    }

    method CancelRequest(cancelled: Option<RequestId>, writer: Writer, ghost sender: Sender)
      requires Valid()
      modifies this, writer
      ensures Valid() && State(writer, sender) == Cancel(old(State(writer, sender)), cancelled)
    {
      match cancelled
      case None =>
      case Some(id) =>
        var i := 0;
        while i < |pendingQueries| && pendingQueries[i].id != id
          invariant i <= |pendingQueries| && forall j | 0 <= j < i :: pendingQueries[j].id != id
        {
          i := i + 1;
        }
        assert i == FirstWith(pendingQueries, id);
        if i < |pendingQueries| {
          pendingQueries := pendingQueries[..i] + pendingQueries[i + 1..];
          writer.Write(Response(id, Refused(CANCELLED)));
        }
    }

    /** `did_open`, `did_change`, `did_save`, `did_close`: the edit on the session. */
    method EditSession(edit: Option<Edit>) returns (ok: bool)
      requires Valid()
      modifies session
      ensures Valid()
      ensures ok <==> edit.Some? && Rejection(old(session.Model()), edit.value).None?
      ensures session.Model() == if edit.Some? then Edited(old(session.Model()), edit.value) else old(session.Model())
    {
      if edit.None? { return false; }
      var r;
      match edit.value {
        case Open(path, version, source) => r := session.OpenDocument(path, version, source);
        case Change(path, version, source) => r := session.ChangeDocument(path, version, source);
        case Close(path) => r := session.CloseDocument(path);
        case Save(path, text) => r := session.SaveDocument(path, text);
        case UpdateBaseline(path, source) => r := session.UpdateBaseline(path, source);
      }
      ok := r.Success?;
    }

    method HandleNotification(name: string, params: Params, writer: Writer, sender: Sender)
      requires Valid()
      modifies this, session, writer, sender
      ensures Valid() && State(writer, sender) == Notify(old(State(writer, sender)), name, params)
    {
      if !lifecycle.Running? { return; }
      if name == "initialized" {
        ScheduleAnalysis(writer, sender);
      } else if name == "$/cancelRequest" {
        CancelRequest(params.cancelled, writer, sender);
      } else if IsEdit(name) {
        var edit := EditFor(name, params);
        var ok := EditSession(edit);
        if ok {
          InvalidateSuperseded(writer, sender);
          ScheduleAnalysis(writer, sender);
        } else {
          writer.Write(LogMessage);
        }
      }
    }

    method HandleQuery(id: RequestId, kind: QueryKind, params: Params, writer: Writer, sender: Sender)
      requires Valid()
      modifies this, writer, sender
      ensures Valid() && State(writer, sender) == Ask(old(State(writer, sender)), id, kind, params)
    {
      var snapshot := session.TakeSnapshot();
      if !(params.path.Some? && HasDocument(snapshot.documents, params.path.value))
         || (kind != SemanticTokens && params.position.None?) || (kind == Rename && params.newName.None?) {
        writer.Write(Response(id, Refused(INVALID_PARAMS)));
      } else if latestAnalysis.Some? && latestAnalysis.value.id == session.CurrentId() {
        writer.Write(Response(id, Answer(kind, params, latestAnalysis.value)));
      } else {
        pendingQueries := pendingQueries + [PendingQuery(id, params, session.CurrentId(), kind)];
        ScheduleAnalysis(writer, sender);
      }
    }

    method HandleRequest(id: RequestId, name: string, params: Params, writer: Writer, sender: Sender)
      requires Valid()
      modifies this, writer, sender
      ensures Valid() && State(writer, sender) == Request(old(State(writer, sender)), id, name, params)
    {
      if name == "initialize" {
        if lifecycle.WaitingForInitialize? {
          lifecycle := Running;
          writer.Write(Response(id, Capabilities));
        } else {
          writer.Write(Response(id, Refused(INVALID_REQUEST)));
        }
      } else if name == "shutdown" {
        if lifecycle.Running? {
          lifecycle := ShutDown;
          CancelAllPending(writer, sender);
          writer.Write(Response(id, ShutdownDone));
        } else {
          writer.Write(Response(id, Refused(INVALID_REQUEST)));
        }
      } else if !lifecycle.Running? {
        writer.Write(Response(id, Refused(NOT_INITIALIZED)));
      } else {
        match KindOf(name)
        case Some(kind) => HandleQuery(id, kind, params, writer, sender);
        case None => writer.Write(Response(id, Refused(METHOD_NOT_FOUND)));
      }
    }

    method HandleMessage(m: Message, writer: Writer, sender: Sender) returns (code: Option<nat>)
      requires Valid()
      modifies this, session, writer, sender
      ensures Valid() && (State(writer, sender), code) == Handle(old(State(writer, sender)), m)
    {
      code := None;
      match m
      case Unparsable => writer.Write(Response(NullId, Refused(PARSE_ERROR)));
      case NotAnObject => writer.Write(Response(NullId, Refused(INVALID_REQUEST)));
      case Call(id, isVersion2, name, params) =>
        if !isVersion2 || name.None? {
          writer.Write(Response(match id case Some(i) => i case None => NullId, Refused(INVALID_REQUEST)));
        } else if name.value == "exit" && id.None? {
          code := Some(if lifecycle.ShutDown? then 0 else 1);
        } else {
          match id
          case None => HandleNotification(name.value, params, writer, sender);
          case Some(i) => HandleRequest(i, name.value, params, writer, sender);
        }
    }

    /** Answers what waits for this analysis, and refuses what waits for an earlier text. */
    method AnswerPending(pending: seq<PendingQuery>, from: Snapshot, writer: Writer)
      modifies writer
      ensures writer.log == old(writer.log) + Answers(pending, from)
    {
      for i := 0 to |pending|
        invariant writer.log == old(writer.log) + Answers(pending[..i], from)
      {
        assert pending[..i + 1][..i] == pending[..i];
        if pending[i].snapshot != from.id {
          writer.Write(Response(pending[i].id, Refused(CONTENT_MODIFIED)));
        } else {
          writer.Write(Response(pending[i].id, Answer(pending[i].kind, pending[i].params, from)));
        }
      }
      assert pending[..|pending|] == pending;
    }

    method AcceptAndPublish(completed: SnapshotAnalysis, writer: Writer, ghost sender: Sender)
      requires Valid()
      modifies this, writer
      ensures Valid() && State(writer, sender) == Accept(old(State(writer, sender)), completed)
    {
      var from := completed.snapshot;
      if requestedAnalysis == Some(from.id) { requestedAnalysis := None; }
      if from.id != session.CurrentId() { return; }
      PublishDiagnostics(from, writer);
      latestAnalysis := Some(from);
      var pending := pendingQueries;
      pendingQueries := [];
      AnswerPending(pending, from, writer);
    }

    method PublishDiagnostics(from: Snapshot, writer: Writer)
      modifies writer
      ensures writer.log == old(writer.log) + Published(from.id, from.documents)
    {
      for i := 0 to |from.documents|
        invariant writer.log == old(writer.log) + Published(from.id, from.documents[..i])
      {
        assert from.documents[..i + 1][..i] == from.documents[..i];
        writer.Write(Diagnostics(from.id, from.documents[i].path, from.documents[i].version));
      }
      assert from.documents[..|from.documents|] == from.documents;
    }
  }
}
