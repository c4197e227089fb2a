/**
 `WorkspaceSession`: baseline documents under an overlay of open ones, with a revision
 that every accepted edit raises. Snapshots of equal identity have equal content.
 */
module WorkspaceSessions {
  import opened Wrappers

  datatype Document = Document(path: string, modulePath: seq<string>, baseline: string, isRoot: bool, editable: bool)

  datatype Overlay = Overlay(version: int, source: string)

  datatype SnapshotId = SnapshotId(session: nat, revision: nat)

  datatype SnapshotDocument = SnapshotDocument(
    path: string, modulePath: seq<string>, source: string, isRoot: bool, version: Option<int>, editable: bool)

  datatype Snapshot = Snapshot(id: SnapshotId, documents: seq<SnapshotDocument>)

  datatype SessionError =
    | DuplicateDocument(path: string)
    | UnknownDocument(path: string)
    | DocumentAlreadyOpen(path: string)
    | DocumentNotOpen(path: string)
    | ReadOnlyDocument(path: string)
    | StaleDocumentVersion(path: string, current: int, received: int)
    | RevisionExhausted

  /** The largest revision, `u64::MAX`. */
  const LAST_REVISION: nat := 0xFFFF_FFFF_FFFF_FFFF

  datatype Session = Session(
    id: nat, revision: nat, documents: seq<Document>, indexes: map<string, nat>, open: map<string, Overlay>)

  datatype Edit =
    | Open(path: string, version: int, source: string)
    | Change(path: string, version: int, source: string)
    | Close(path: string)
    | Save(path: string, text: Option<string>)
    | UpdateBaseline(path: string, source: string)

  /** The index finds each document under its path. */
  ghost predicate Indexed(documents: seq<Document>, indexes: map<string, nat>) {
    && (forall path | path in indexes :: indexes[path] < |documents| && documents[indexes[path]].path == path)
    && (forall i | 0 <= i < |documents| :: documents[i].path in indexes && indexes[documents[i].path] == i)
  }

  ghost predicate ValidSession(s: Session) { Indexed(s.documents, s.indexes) && s.revision <= LAST_REVISION }

  function IdOf(s: Session): SnapshotId { SnapshotId(s.id, s.revision) }

  function ViewDocument(d: Document, open: map<string, Overlay>): SnapshotDocument {
    if d.path in open then
      SnapshotDocument(d.path, d.modulePath, open[d.path].source, d.isRoot, Some(open[d.path].version), d.editable)
    else SnapshotDocument(d.path, d.modulePath, d.baseline, d.isRoot, None, d.editable)
  }

  function SnapshotOf(s: Session): Snapshot {
    Snapshot(IdOf(s), seq(|s.documents|, i requires 0 <= i < |s.documents| => ViewDocument(s.documents[i], s.open)))
  }

  /* ----- edits ----- */

  function Known(s: Session, path: string): Option<SessionError> {
    if path !in s.indexes || s.indexes[path] >= |s.documents| then Some(UnknownDocument(path))
    else if !s.documents[s.indexes[path]].editable then Some(ReadOnlyDocument(path))
    else None
  }

  /** Why an edit is rejected, if it is: the first failing check in source order. */
  function Rejection(s: Session, e: Edit): Option<SessionError> {
    if Known(s, e.path).Some? then Known(s, e.path)
    else if e.Open? && e.path in s.open then Some(DocumentAlreadyOpen(e.path))
    else if (e.Change? || e.Close? || e.Save?) && e.path !in s.open then Some(DocumentNotOpen(e.path))
    else if e.Change? && e.version <= s.open[e.path].version then
      Some(StaleDocumentVersion(e.path, s.open[e.path].version, e.version))
    else if s.revision == LAST_REVISION then Some(RevisionExhausted)
    else None
  }

  function WithBaseline(s: Session, path: string, text: string): Session
    requires path in s.indexes && s.indexes[path] < |s.documents|
  {
    s.(documents := s.documents[s.indexes[path] := s.documents[s.indexes[path]].(baseline := text)])
  }

  /** An accepted edit raises the revision and changes one document; a rejected one changes nothing. */
  function Edited(s: Session, e: Edit): Session {
    if Rejection(s, e).Some? then s
    else
      var raised := s.(revision := s.revision + 1);
      match e
      case Open(path, version, source) => raised.(open := s.open[path := Overlay(version, source)])
      case Change(path, version, source) => raised.(open := s.open[path := Overlay(version, source)])
      case Close(path) => raised.(open := s.open - {path})
      case Save(path, text) =>
        WithBaseline(raised, path, match text case Some(t) => t case None => s.open[path].source)
      case UpdateBaseline(path, source) => WithBaseline(raised, path, source)
  }

  lemma EditedIsValid(s: Session, e: Edit)
    requires ValidSession(s)
    ensures ValidSession(Edited(s, e)) && Edited(s, e).id == s.id
    ensures Edited(s, e) == s || Edited(s, e).revision == s.revision + 1
  {
  }

  /* ----- the object ----- */

  class WorkspaceSession {
    const id: nat
    var revision: nat
    var documents: seq<Document>
    const documentIndexes: map<string, nat>
    var openDocuments: map<string, Overlay>

    ghost function Model(): Session
      reads this
    {
      Session(id, revision, documents, documentIndexes, openDocuments)
    }

    ghost predicate Valid()
      reads this
    {
      ValidSession(Model())
    }

    constructor (freshId: nat, sources: seq<Document>, indexes: map<string, nat>)
      requires Indexed(sources, indexes)
      ensures Valid() && Model() == Session(freshId, 0, sources, indexes, map[])
    {
      id, revision, documents, documentIndexes, openDocuments := freshId, 0, sources, indexes, map[];
    }

    function CurrentId(): (r: SnapshotId)
      reads this
    {
      SnapshotId(id, revision)
    }

    method RequireEditable(path: string) returns (r: Result<nat, SessionError>)
      requires Valid()
      ensures r.Failure? <==> Known(Model(), path).Some?
      ensures r.Failure? ==> Known(Model(), path) == Some(r.error)
      ensures r.Success? ==> path in documentIndexes && r.value == documentIndexes[path] < |documents|
    {
      if path !in documentIndexes {
        return Failure(UnknownDocument(path));
      }
      var index := documentIndexes[path];
      r := if documents[index].editable then Success(index) else Failure(ReadOnlyDocument(path));
    }

    method BumpRevision() returns (ok: bool)
      requires Valid()
      modifies this`revision
      ensures ok <==> old(revision) < LAST_REVISION
      ensures revision == if ok then old(revision) + 1 else old(revision)
      ensures Valid()
    {
      ok := revision < LAST_REVISION;
      if ok { revision := revision + 1; }
    }

    method OpenDocument(path: string, version: int, source: string) returns (r: Result<SnapshotId, SessionError>)
      requires Valid()
      modifies this
      ensures Applied(old(Model()), Edit.Open(path, version, source), r)
    {
      var index := RequireEditable(path);
      if index.Failure? { return Failure(index.error); }
      if path in openDocuments { return Failure(DocumentAlreadyOpen(path)); }
      var bumped := BumpRevision();
      if !bumped { return Failure(RevisionExhausted); }
      openDocuments := openDocuments[path := Overlay(version, source)];
      r := Success(CurrentId());
    }

    method ChangeDocument(path: string, version: int, source: string) returns (r: Result<SnapshotId, SessionError>)
      requires Valid()
      modifies this
      ensures Applied(old(Model()), Change(path, version, source), r)
    {
      var index := RequireEditable(path);
      if index.Failure? { return Failure(index.error); }
      if path !in openDocuments { return Failure(DocumentNotOpen(path)); }
      var current := openDocuments[path].version;
      if version <= current { return Failure(StaleDocumentVersion(path, current, version)); }
      var bumped := BumpRevision();
      if !bumped { return Failure(RevisionExhausted); }
      openDocuments := openDocuments[path := Overlay(version, source)];
      r := Success(CurrentId());
    }

    method CloseDocument(path: string) returns (r: Result<SnapshotId, SessionError>)
      requires Valid()
      modifies this
      ensures Applied(old(Model()), Close(path), r)
    {
      var index := RequireEditable(path);
      if index.Failure? { return Failure(index.error); }
      if path !in openDocuments { return Failure(DocumentNotOpen(path)); }
      var bumped := BumpRevision();
      if !bumped { return Failure(RevisionExhausted); }
      openDocuments := openDocuments - {path};
      r := Success(CurrentId());
    }

    method SaveDocument(path: string, text: Option<string>) returns (r: Result<SnapshotId, SessionError>)
      requires Valid()
      modifies this
      ensures Applied(old(Model()), Save(path, text), r)
    {
      var index := RequireEditable(path);
      if index.Failure? { return Failure(index.error); }
      if path !in openDocuments { return Failure(DocumentNotOpen(path)); }
      var baseline := match text case Some(t) => t case None => openDocuments[path].source;
      var bumped := BumpRevision();
      if !bumped { return Failure(RevisionExhausted); }
      documents := documents[index.value := documents[index.value].(baseline := baseline)];
      r := Success(CurrentId());
    }

    method UpdateBaseline(path: string, source: string) returns (r: Result<SnapshotId, SessionError>)
      requires Valid()
      modifies this
      ensures Applied(old(Model()), Edit.UpdateBaseline(path, source), r)
    {
      var index := RequireEditable(path);
      if index.Failure? { return Failure(index.error); }
      var bumped := BumpRevision();
      if !bumped { return Failure(RevisionExhausted); }
      documents := documents[index.value := documents[index.value].(baseline := source)];
      r := Success(CurrentId());
    }

    /** The object is where the edit takes the old state, and the answer says so. */
    ghost predicate Applied(before: Session, e: Edit, r: Result<SnapshotId, SessionError>)
      reads this
    {
      && Valid() && Model() == Edited(before, e)
      && r == match Rejection(before, e)
              case Some(error) => Failure(error)
              case None => Success(IdOf(Edited(before, e)))
    }

    method TakeSnapshot() returns (s: Snapshot)
      requires Valid()
      ensures s == SnapshotOf(Model())
    {
      var views: seq<SnapshotDocument> := [];
      for i := 0 to |documents|
        invariant |views| == i && forall j | 0 <= j < i :: views[j] == ViewDocument(documents[j], openDocuments)
      {
        views := views + [ViewDocument(documents[i], openDocuments)];
      }
      s := Snapshot(CurrentId(), views);
    }
  }

  /** `new_packages`: paths must differ; documents of the primary package can be edited. */
  method NewSession(freshId: nat, sources: seq<Document>) returns (r: Result<WorkspaceSession, SessionError>)
    ensures r.Success? <==> forall i, j | 0 <= i < j < |sources| :: sources[i].path != sources[j].path
    ensures r.Success? ==> fresh(r.value) && r.value.Valid()
    ensures r.Success? ==>
              && SnapshotOf(r.value.Model()).id == SnapshotId(freshId, 0)
              && r.value.Model().documents == sources
    ensures r.Success? ==> r.value.Model().open == map[]
  {
    var indexes: map<string, nat> := map[];
    for i := 0 to |sources|
      invariant Indexed(sources[..i], indexes)
      invariant forall j, k | 0 <= j < k < i :: sources[j].path != sources[k].path
    {
      if sources[i].path in indexes {
        assert sources[indexes[sources[i].path]].path == sources[i].path;
        return Failure(DuplicateDocument(sources[i].path));
      }
      indexes := indexes[sources[i].path := i];
    }
    assert sources[..|sources|] == sources;
    var session := new WorkspaceSession(freshId, sources, indexes);
    r := Success(session);
  }

  /* ----- histories ----- */

  /** Edits one after another, the rejected ones included. */
  ghost predicate IsHistory(states: seq<Session>, edits: seq<Edit>) {
    && |states| == |edits| + 1
    && forall i | 0 <= i < |edits| :: states[i + 1] == Edited(states[i], edits[i])
  }

  lemma {:induction false} RevisionsRise(states: seq<Session>, edits: seq<Edit>, i: nat, j: nat)
    requires IsHistory(states, edits) && i <= j < |states|
    ensures states[j].id == states[i].id && states[j].revision >= states[i].revision
    ensures states[j].revision == states[i].revision ==> states[j] == states[i]
    decreases j
  {
    if i < j {
      RevisionsRise(states, edits, i, j - 1);
      assert states[j - 1 + 1] == Edited(states[j - 1], edits[j - 1]);
    }
  }

  /** Within one history, a snapshot's identity determines its documents and versions. */
  lemma SnapshotIdentity(states: seq<Session>, edits: seq<Edit>, i: nat, j: nat)
    requires IsHistory(states, edits) && i < |states| && j < |states|
    requires SnapshotOf(states[i]).id == SnapshotOf(states[j]).id
    ensures SnapshotOf(states[i]) == SnapshotOf(states[j])
  {
    if i <= j { RevisionsRise(states, edits, i, j); } else { RevisionsRise(states, edits, j, i); }
  }

  /** The text an analysis was made from, with the identity it carries. */
  datatype SnapshotAnalysis = SnapshotAnalysis(snapshot: Snapshot)

  /** `accept_analysis`: only a result for the current identity is taken. */
  function AcceptAnalysis(s: Session, result: SnapshotAnalysis): Option<Snapshot> {
    if result.snapshot.id == IdOf(s) then Some(result.snapshot) else None
  }

  /** An analysis started at any earlier point is accepted exactly when the text is still that text. */
  lemma AcceptedIsCurrent(states: seq<Session>, edits: seq<Edit>, i: nat, j: nat)
    requires IsHistory(states, edits) && i <= j < |states|
    ensures AcceptAnalysis(states[j], SnapshotAnalysis(SnapshotOf(states[i]))).Some? <==>
            forall k: nat | i <= k <= j :: states[k] == states[i]
    ensures AcceptAnalysis(states[j], SnapshotAnalysis(SnapshotOf(states[i]))).Some? ==>
              SnapshotOf(states[i]) == SnapshotOf(states[j])
  {
    forall k: nat | i <= k <= j && states[j].revision == states[i].revision ensures states[k] == states[i] {
      RevisionsRise(states, edits, i, k);
      RevisionsRise(states, edits, k, j);
    }
    RevisionsRise(states, edits, i, j);
  }

  /** While a document stays open, its version only rises. */
  lemma VersionsRise(s: Session, e: Edit, path: string)
    requires path in s.open && path in Edited(s, e).open
    ensures Edited(s, e).open[path].version >= s.open[path].version
    ensures Edited(s, e).open[path].version == s.open[path].version ==> Edited(s, e).open[path] == s.open[path]
  {
  }
}
