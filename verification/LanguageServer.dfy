/**
 What the language server does with one message or one finished analysis, on values.
 `LanguageServerObject.dfy` holds the object that does it in place.
 */
module LanguageServers {
  import opened Wrappers
  import opened WorkspaceSessions

  datatype RequestId = NullId | NumberId(number: int) | TextId(text: string) | OtherId(value: string)

  datatype Lifecycle = WaitingForInitialize | Running | ShutDown

  datatype QueryKind = SemanticTokens | Definition | References | Hover | PrepareRename | Rename

  datatype ContentChange = ContentChange(isObject: bool, hasRange: bool, text: Option<string>)

  /** The decoded parameters; a field is `None` when it is missing or has the wrong type. */
  datatype Params = Params(
    path: Option<string>, version: Option<int>, text: Option<string>, changes: Option<seq<ContentChange>>,
    savedText: Option<string>, position: Option<(nat, nat)>, newName: Option<string>, cancelled: Option<RequestId>)

  datatype Message =
    | Unparsable
    | NotAnObject
    | Call(id: Option<RequestId>, isVersion2: bool, name: Option<string>, params: Params)

  /** An answer records the query and the text it was computed from. */
  datatype Outcome =
    | Capabilities
    | ShutdownDone
    | Answer(kind: QueryKind, params: Params, from: Snapshot)
    | Refused(code: int)

  datatype Output =
    | Response(id: RequestId, outcome: Outcome)
    | Diagnostics(snapshot: SnapshotId, path: string, version: Option<int>)
    | LogMessage

  const PARSE_ERROR: int := -32700
  const INVALID_REQUEST: int := -32600
  const METHOD_NOT_FOUND: int := -32601
  const INVALID_PARAMS: int := -32602
  const NOT_INITIALIZED: int := -32002
  const CANCELLED: int := -32800
  const CONTENT_MODIFIED: int := -32801

  datatype PendingQuery = PendingQuery(id: RequestId, params: Params, snapshot: SnapshotId, kind: QueryKind)

  datatype ServerState = ServerState(
    session: Session, lifecycle: Lifecycle, latest: Option<Snapshot>, requested: Option<SnapshotId>,
    pending: seq<PendingQuery>)

  /** The server with what it has written and what it has sent to the analysis worker. */
  datatype World = World(server: ServerState, written: seq<Output>, channel: seq<Snapshot>)

  /* ----- replies ----- */

  function Put(w: World, more: seq<Output>): World { w.(written := w.written + more) }

  function Reply(w: World, id: RequestId, outcome: Outcome): World { Put(w, [Response(id, outcome)]) }

  function IsCurrent(s: ServerState): bool {
    s.latest.Some? && s.latest.value.id == IdOf(s.session)
  }

  function Refusals(pending: seq<PendingQuery>, code: int): seq<Output> {
    if pending == [] then []
    else Refusals(pending[..|pending| - 1], code) + [Response(pending[|pending| - 1].id, Refused(code))]
  }

  lemma RefuseMore(pending: seq<PendingQuery>, q: PendingQuery, code: int)
    ensures Refusals(pending + [q], code) == Refusals(pending, code) + [Response(q.id, Refused(code))]
  {
    assert (pending + [q])[..|pending|] == pending;
  }

  /* ----- analysis ----- */

  /** `schedule_analysis`: the current snapshot is sent unless it was already requested. */
  function Schedule(w: World): World {
    if w.server.requested == Some(IdOf(w.server.session)) then w
    else w.(server := w.server.(requested := Some(IdOf(w.server.session))),
            channel := w.channel + [SnapshotOf(w.server.session)])
  }

  function Published(id: SnapshotId, documents: seq<SnapshotDocument>): seq<Output> {
    if documents == [] then []
    else
      var last := documents[|documents| - 1];
      Published(id, documents[..|documents| - 1]) + [Diagnostics(id, last.path, last.version)]
  }

  function AnswerOne(q: PendingQuery, from: Snapshot): Output {
    Response(q.id, if q.snapshot != from.id then Refused(CONTENT_MODIFIED) else Answer(q.kind, q.params, from))
  }

  function Answers(pending: seq<PendingQuery>, from: Snapshot): seq<Output> {
    if pending == [] then []
    else Answers(pending[..|pending| - 1], from) + [AnswerOne(pending[|pending| - 1], from)]
  }

  /** `accept_and_publish`. */
  function Accept(w: World, completed: SnapshotAnalysis): World {
    var from := completed.snapshot;
    var s := if w.server.requested == Some(from.id) then w.server.(requested := None) else w.server;
    match AcceptAnalysis(s.session, completed)
    case None => w.(server := s)
    case Some(_) =>
      Put(w.(server := s.(latest := Some(from), pending := [])),
          Published(from.id, from.documents) + Answers(s.pending, from))
  }

  /* ----- notifications ----- */

  function Retained(pending: seq<PendingQuery>, current: SnapshotId): seq<PendingQuery> {
    if pending == [] then []
    else
      var last := pending[|pending| - 1];
      Retained(pending[..|pending| - 1], current) + (if last.snapshot == current then [last] else [])
  }

  function Superseded(pending: seq<PendingQuery>, current: SnapshotId): seq<PendingQuery> {
    if pending == [] then []
    else
      var last := pending[|pending| - 1];
      Superseded(pending[..|pending| - 1], current) + (if last.snapshot == current then [] else [last])
  }

  lemma DivideNext(pending: seq<PendingQuery>, i: nat, current: SnapshotId)
    requires i < |pending|
    ensures var retained, superseded := Retained(pending[..i], current), Superseded(pending[..i], current);
            if pending[i].snapshot == current then
              && Retained(pending[..i + 1], current) == retained + [pending[i]]
              && Superseded(pending[..i + 1], current) == superseded
            else
              && Retained(pending[..i + 1], current) == retained
              && Superseded(pending[..i + 1], current) == superseded + [pending[i]]
  {
    assert pending[..i + 1][..i] == pending[..i];
  }

  /** `invalidate_superseded_requests`. */
  function Invalidate(w: World): World {
    var current := IdOf(w.server.session);
    Put(w.(server := w.server.(pending := Retained(w.server.pending, current))),
        Refusals(Superseded(w.server.pending, current), CONTENT_MODIFIED))
  }

  /** The position of the first pending query with this identity, or the number of queries. */
  function FirstWith(pending: seq<PendingQuery>, id: RequestId): (i: nat)
    ensures i <= |pending|
    ensures i < |pending| ==> pending[i].id == id
    ensures forall j | 0 <= j < i :: pending[j].id != id
  {
    if pending == [] then 0
    else if pending[0].id == id then 0
    else 1 + FirstWith(pending[1..], id)
  }

  /** `cancel_request`. */
  function Cancel(w: World, cancelled: Option<RequestId>): World {
    match cancelled
    case None => w
    case Some(id) =>
      var i := FirstWith(w.server.pending, id);
      if i == |w.server.pending| then w
      else Reply(w.(server := w.server.(pending := w.server.pending[..i] + w.server.pending[i + 1..])), id,
                 Refused(CANCELLED))
  }

  /** `cancel_all_pending`, on shutdown. */
  function CancelAll(w: World): World {
    Put(w.(server := w.server.(pending := [])), Refusals(w.server.pending, CANCELLED))
  }

  /** The edit a notification asks for, if its parameters are complete. */
  function EditFor(name: string, p: Params): Option<Edit> {
    if p.path.None? then None
    else if name == "textDocument/didOpen" then
      if p.version.Some? && p.text.Some? then Some(Open(p.path.value, p.version.value, p.text.value)) else None
    else if name == "textDocument/didChange" then
      if p.version.None? || p.changes.None? then None
      else if |p.changes.value| != 1 || p.changes.value[0].hasRange then None
      else if !p.changes.value[0].isObject || p.changes.value[0].text.None? then None
      else Some(Change(p.path.value, p.version.value, p.changes.value[0].text.value))
    else if name == "textDocument/didSave" then Some(Save(p.path.value, p.savedText))
    else Some(Close(p.path.value))
  }

  predicate IsEdit(name: string) {
    name in {"textDocument/didOpen", "textDocument/didChange", "textDocument/didSave", "textDocument/didClose"}
  }

  function ApplyEdit(w: World, edit: Option<Edit>): World {
    if edit.None? || Rejection(w.server.session, edit.value).Some? then Put(w, [LogMessage])
    else Schedule(Invalidate(w.(server := w.server.(session := Edited(w.server.session, edit.value)))))
  }

  function Notify(w: World, name: string, p: Params): World {
    if !w.server.lifecycle.Running? then w
    else if name == "initialized" then Schedule(w)
    else if name == "$/cancelRequest" then Cancel(w, p.cancelled)
    else if IsEdit(name) then ApplyEdit(w, EditFor(name, p))
    else w
  }

  /* ----- requests ----- */

  function KindOf(name: string): Option<QueryKind> {
    if name == "textDocument/semanticTokens/full" then Some(SemanticTokens)
    else if name == "textDocument/definition" then Some(Definition)
    else if name == "textDocument/references" then Some(References)
    else if name == "textDocument/hover" then Some(Hover)
    else if name == "textDocument/prepareRename" then Some(PrepareRename)
    else if name == "textDocument/rename" then Some(Rename)
    else None
  }

  predicate HasDocument(documents: seq<SnapshotDocument>, path: string) {
    exists i :: 0 <= i < |documents| && documents[i].path == path
  }

  predicate QueryOk(s: Session, kind: QueryKind, p: Params) {
    && p.path.Some? && HasDocument(SnapshotOf(s).documents, p.path.value)
    && (kind != SemanticTokens ==> p.position.Some?)
    && (kind == Rename ==> p.newName.Some?)
  }

  /** A query is refused, answered from the current analysis, or kept for the next one. */
  function Ask(w: World, id: RequestId, kind: QueryKind, p: Params): World {
    if !QueryOk(w.server.session, kind, p) then Reply(w, id, Refused(INVALID_PARAMS))
    else if IsCurrent(w.server) then Reply(w, id, Answer(kind, p, w.server.latest.value))
    else
      Schedule(w.(server := w.server.(pending :=
        w.server.pending + [PendingQuery(id, p, IdOf(w.server.session), kind)])))
  }

  function Request(w: World, id: RequestId, name: string, p: Params): World {
    if name == "initialize" then
      if w.server.lifecycle.WaitingForInitialize? then
        Reply(w.(server := w.server.(lifecycle := Running)), id, Capabilities)
      else Reply(w, id, Refused(INVALID_REQUEST))
    else if name == "shutdown" then
      if w.server.lifecycle.Running? then
        Reply(CancelAll(w.(server := w.server.(lifecycle := ShutDown))), id, ShutdownDone)
      else Reply(w, id, Refused(INVALID_REQUEST))
    else if !w.server.lifecycle.Running? then Reply(w, id, Refused(NOT_INITIALIZED))
    else match KindOf(name)
      case Some(kind) => Ask(w, id, kind, p)
      case None => Reply(w, id, Refused(METHOD_NOT_FOUND))
  }

  /** One incoming message; `exit` also ends the server with a code. */
  function Handle(w: World, m: Message): (World, Option<nat>) {
    match m
    case Unparsable => (Reply(w, NullId, Refused(PARSE_ERROR)), None)
    case NotAnObject => (Reply(w, NullId, Refused(INVALID_REQUEST)), None)
    case Call(id, isVersion2, name, params) =>
      if !isVersion2 || name.None? then
        (Reply(w, match id case Some(i) => i case None => NullId, Refused(INVALID_REQUEST)), None)
      else if name.value == "exit" && id.None? then
        (w, Some(if w.server.lifecycle.ShutDown? then 0 else 1))
      else match id
        case None => (Notify(w, name.value, params), None)
        case Some(i) => (Request(w, i, name.value, params), None)
  }
}
