/**
 What a session shows. Everything here is said of snapshots: which edits are accepted, and
 which text and version each document then has, over one edit and over whole histories.
 */
module SessionTexts {
  import opened Wrappers
  import opened WorkspaceSessions

  /** The snapshot has the document, with this text and version. */
  ghost predicate Shows(x: Snapshot, path: string, source: string, version: Option<int>) {
    && (exists d :: d in x.documents && d.path == path)
    && forall d | d in x.documents && d.path == path :: d.source == source && d.version == version
  }

  ghost predicate HasEditable(x: Snapshot, path: string) {
    exists d :: d in x.documents && d.path == path && d.editable
  }

  ghost predicate IsOpen(x: Snapshot, path: string) {
    exists d :: d in x.documents && d.path == path && d.version.Some?
  }

  /** Nothing but the text and the version of a document ever changes. */
  predicate SameFile(a: SnapshotDocument, b: SnapshotDocument) {
    a.path == b.path && a.modulePath == b.modulePath && a.isRoot == b.isRoot && a.editable == b.editable
  }

  /** The other documents are as they were, and all keep their places. */
  ghost predicate OnlyChanges(x: Snapshot, y: Snapshot, path: string) {
    && |x.documents| == |y.documents|
    && forall i | 0 <= i < |x.documents| ::
         && SameFile(x.documents[i], y.documents[i])
         && (x.documents[i].path != path ==> x.documents[i] == y.documents[i])
  }

  predicate Accepted(s: Session, e: Edit) { Rejection(s, e).None? }

  lemma FoundAt(s: Session, path: string) returns (i: nat)
    requires ValidSession(s) && path in s.indexes
    ensures i == s.indexes[path] < |s.documents| == |SnapshotOf(s).documents| && s.documents[i].path == path
    ensures SnapshotOf(s).documents[i] in SnapshotOf(s).documents && SnapshotOf(s).documents[i].path == path
    ensures forall d | d in SnapshotOf(s).documents && d.path == path :: d == SnapshotOf(s).documents[i]
  {
    i := s.indexes[path];
    forall d | d in SnapshotOf(s).documents && d.path == path ensures d == SnapshotOf(s).documents[i] {
      var j :| 0 <= j < |s.documents| && SnapshotOf(s).documents[j] == d;
      assert s.documents[j].path == path;
    }
  }

  /** A path without an index belongs to no document. */
  lemma NotFound(s: Session, path: string)
    requires ValidSession(s) && path !in s.indexes
    ensures forall d | d in SnapshotOf(s).documents :: d.path != path
  {
    forall d | d in SnapshotOf(s).documents ensures d.path != path {
      var j :| 0 <= j < |s.documents| && SnapshotOf(s).documents[j] == d;
      assert s.documents[j].path in s.indexes;
    }
  }

  /** A session just created shows its documents as they were given, all closed. */
  lemma StartShows(s: Session, i: nat)
    requires ValidSession(s) && s.open == map[] && i < |s.documents|
    ensures Shows(SnapshotOf(s), s.documents[i].path, s.documents[i].baseline, None)
    ensures HasEditable(SnapshotOf(s), s.documents[i].path) <==> s.documents[i].editable
  {
    var j := FoundAt(s, s.documents[i].path);
  }

  /* ----- which edits are accepted, and why others are not ----- */

  /**
   An edit is accepted exactly for an editable document, closed for an open, open for a
   change, a close or a save, a change only with a newer version, while revisions last.
   */
  lemma AcceptedExactly(s: Session, e: Edit)
    requires ValidSession(s)
    ensures var x := SnapshotOf(s);
            Accepted(s, e) <==>
              && HasEditable(x, e.path) && x.id.revision < 0xFFFF_FFFF_FFFF_FFFF
              && (e.Open? ==> !IsOpen(x, e.path))
              && (e.Change? || e.Close? || e.Save? ==> IsOpen(x, e.path))
              && (e.Change? ==> forall d | d in x.documents && d.path == e.path ::
                                  d.version.Some? && d.version.value < e.version)
  {
    if e.path in s.indexes {
      var i := FoundAt(s, e.path);
      assert IsOpen(SnapshotOf(s), e.path) <==> e.path in s.open;
    } else {
      NotFound(s, e.path);
    }
  }

  /** The first failing check, in this order, is the one reported. */
  lemma RejectionCause(s: Session, e: Edit)
    requires ValidSession(s) && !Accepted(s, e)
    ensures var x, error := SnapshotOf(s), Rejection(s, e).value;
            if forall d | d in x.documents :: d.path != e.path then error == UnknownDocument(e.path)
            else if !HasEditable(x, e.path) then error == ReadOnlyDocument(e.path)
            else if e.Open? && IsOpen(x, e.path) then error == DocumentAlreadyOpen(e.path)
            else if (e.Change? || e.Close? || e.Save?) && !IsOpen(x, e.path) then error == DocumentNotOpen(e.path)
            else if error.StaleDocumentVersion? then
              && e.Change? && error.path == e.path && error.received == e.version && e.version <= error.current
              && forall d | d in x.documents && d.path == e.path :: d.version == Some(error.current)
            else error == RevisionExhausted && x.id.revision == 0xFFFF_FFFF_FFFF_FFFF
  {
    if e.path in s.indexes {
      var i := FoundAt(s, e.path);
      assert IsOpen(SnapshotOf(s), e.path) <==> e.path in s.open;
    } else {
      NotFound(s, e.path);
    }
  }

  /* ----- what one edit shows ----- */

  /** An open or a change shows exactly its text under its version. */
  lemma EditShows(s: Session, e: Edit)
    requires ValidSession(s) && Accepted(s, e) && (e.Open? || e.Change?)
    ensures Shows(SnapshotOf(Edited(s, e)), e.path, e.source, Some(e.version))
    ensures OnlyChanges(SnapshotOf(s), SnapshotOf(Edited(s, e)), e.path)
  {
    EditedIsValid(s, e);
    var i := FoundAt(Edited(s, e), e.path);
  }

  /** Saving, and a new baseline under an open document, change nothing that shows. */
  lemma SaveIsInvisible(s: Session, e: Edit)
    requires ValidSession(s) && Accepted(s, e) && (e.Save? || (e.UpdateBaseline? && IsOpen(SnapshotOf(s), e.path)))
    ensures SnapshotOf(Edited(s, e)).documents == SnapshotOf(s).documents
  {
    EditedIsValid(s, e);
    var i := FoundAt(s, e.path);
    assert e.path in s.open;
    forall j | 0 <= j < |s.documents|
      ensures SnapshotOf(Edited(s, e)).documents[j] == SnapshotOf(s).documents[j]
    {
    }
  }

  /** A new baseline of a closed document is what then shows. */
  lemma BaselineShows(s: Session, e: Edit)
    requires ValidSession(s) && Accepted(s, e) && e.UpdateBaseline? && !IsOpen(SnapshotOf(s), e.path)
    ensures Shows(SnapshotOf(Edited(s, e)), e.path, e.source, None)
    ensures OnlyChanges(SnapshotOf(s), SnapshotOf(Edited(s, e)), e.path)
  {
    EditedIsValid(s, e);
    var i := FoundAt(s, e.path);
    var k := FoundAt(Edited(s, e), e.path);
    assert e.path !in s.open;
  }

  /** A closed document has no version. */
  lemma CloseHides(s: Session, e: Edit)
    requires ValidSession(s) && Accepted(s, e) && e.Close?
    ensures !IsOpen(SnapshotOf(Edited(s, e)), e.path)
    ensures OnlyChanges(SnapshotOf(s), SnapshotOf(Edited(s, e)), e.path)
  {
    EditedIsValid(s, e);
    var i := FoundAt(Edited(s, e), e.path);
  }

  /* ----- what a history shows ----- */

  /** The edits that open or close a document, or give it another text while open. */
  ghost predicate Opens(states: seq<Session>, edits: seq<Edit>, k: nat, path: string)
    requires |states| == |edits| + 1
  {
    && k < |edits| && edits[k].path == path && Accepted(states[k], edits[k])
    && (edits[k].Open? || edits[k].Change? || edits[k].Close?)
  }

  /** The edits that give a document the text it has once closed. */
  ghost predicate Settles(states: seq<Session>, edits: seq<Edit>, k: nat, path: string)
    requires |states| == |edits| + 1
  {
    && k < |edits| && edits[k].path == path && Accepted(states[k], edits[k])
    && (edits[k].Save? || edits[k].UpdateBaseline?)
  }

  /** A session just created, and edits one after another. */
  ghost predicate FromStart(states: seq<Session>, edits: seq<Edit>) {
    IsHistory(states, edits) && ValidSession(states[0]) && states[0].open == map[]
  }

  lemma {:induction false} StaysValid(states: seq<Session>, edits: seq<Edit>, j: nat)
    requires FromStart(states, edits) && j < |states|
    ensures ValidSession(states[j]) && states[j].indexes == states[0].indexes
    decreases j
  {
    if j > 0 {
      StaysValid(states, edits, j - 1);
      assert states[j - 1 + 1] == Edited(states[j - 1], edits[j - 1]);
      EditedIsValid(states[j - 1], edits[j - 1]);
    }
  }

  /** The overlay is that of the last edit that opens or closes. */
  lemma {:induction false} OverlayStays(states: seq<Session>, edits: seq<Edit>, i: nat, j: nat, path: string)
    requires IsHistory(states, edits) && i <= j < |states|
    requires forall k | i <= k < j :: !Opens(states, edits, k, path)
    ensures path in states[i].open <==> path in states[j].open
    ensures path in states[i].open ==> states[i].open[path] == states[j].open[path]
    decreases j
  {
    if i < j {
      OverlayStays(states, edits, i, j - 1, path);
      assert states[j - 1 + 1] == Edited(states[j - 1], edits[j - 1]);
      assert !Opens(states, edits, j - 1, path);
    }
  }

  function BaselineOf(s: Session, path: string): Option<string> {
    if path in s.indexes && s.indexes[path] < |s.documents| then Some(s.documents[s.indexes[path]].baseline) else None
  }

  lemma {:induction false} BaselineStays(states: seq<Session>, edits: seq<Edit>, i: nat, j: nat, path: string)
    requires FromStart(states, edits) && i <= j < |states|
    requires forall k | i <= k < j :: !Settles(states, edits, k, path)
    ensures BaselineOf(states[i], path) == BaselineOf(states[j], path)
    decreases j
  {
    if i < j {
      BaselineStays(states, edits, i, j - 1, path);
      StaysValid(states, edits, j - 1);
      var s := states[j - 1];
      assert states[j - 1 + 1] == Edited(s, edits[j - 1]);
      assert !Settles(states, edits, j - 1, path);
      if path in s.indexes {
        assert edits[j - 1].path != path && edits[j - 1].path in s.indexes
          ==> s.indexes[edits[j - 1].path] != s.indexes[path];
      }
    }
  }

  /** While a document is open, the last accepted open or change decides what shows. */
  lemma OpenTextDecided(states: seq<Session>, edits: seq<Edit>, k: nat, j: nat)
    requires FromStart(states, edits) && k < j < |states| && (edits[k].Open? || edits[k].Change?)
    requires Accepted(states[k], edits[k])
    requires forall m | k < m < j :: !Opens(states, edits, m, edits[k].path)
    ensures Shows(SnapshotOf(states[j]), edits[k].path, edits[k].source, Some(edits[k].version))
  {
    var path := edits[k].path;
    StaysValid(states, edits, k);
    StaysValid(states, edits, j);
    assert states[k + 1] == Edited(states[k], edits[k]);
    OverlayStays(states, edits, k + 1, j, path);
    var i := FoundAt(states[j], path);
  }

  /** The last open or close, if any, was a close. */
  ghost predicate ClosedAt(states: seq<Session>, edits: seq<Edit>, j: nat, path: string)
    requires |states| == |edits| + 1 && j < |states|
  {
    || (forall m | 0 <= m < j :: !Opens(states, edits, m, path))
    || (exists k: nat :: k < j && Opens(states, edits, k, path) && edits[k].Close?
                         && forall m | k < m < j :: !Opens(states, edits, m, path))
  }

  lemma ClosedHasNoOverlay(states: seq<Session>, edits: seq<Edit>, j: nat, path: string)
    requires FromStart(states, edits) && j < |states| && ClosedAt(states, edits, j, path)
    ensures path !in states[j].open
  {
    if forall m | 0 <= m < j :: !Opens(states, edits, m, path) {
      OverlayStays(states, edits, 0, j, path);
    } else {
      var k: nat :| k < j && Opens(states, edits, k, path) && edits[k].Close?
                    && forall m | k < m < j :: !Opens(states, edits, m, path);
      assert states[k + 1] == Edited(states[k], edits[k]);
      OverlayStays(states, edits, k + 1, j, path);
    }
  }

  /** The text an accepted save or new baseline settles on; a save without text takes what shows. */
  ghost predicate SettlesOn(states: seq<Session>, edits: seq<Edit>, k: nat, source: string)
    requires |states| == |edits| + 1 && k < |edits|
  {
    match edits[k]
    case Save(_, Some(text)) => source == text
    case Save(path, None) => exists version :: Shows(SnapshotOf(states[k]), path, source, version)
    case UpdateBaseline(_, text) => source == text
    case _ => false
  }

  /** Once a document is closed, the last accepted save or new baseline decides what shows. */
  lemma ClosedTextDecided(states: seq<Session>, edits: seq<Edit>, k: nat, j: nat, source: string)
    requires FromStart(states, edits) && k < j < |states|
    requires Settles(states, edits, k, edits[k].path) && SettlesOn(states, edits, k, source)
    requires forall m | k < m < j :: !Settles(states, edits, m, edits[k].path)
    requires ClosedAt(states, edits, j, edits[k].path)
    ensures Shows(SnapshotOf(states[j]), edits[k].path, source, None)
  {
    var path := edits[k].path;
    StaysValid(states, edits, k);
    StaysValid(states, edits, j);
    assert states[k + 1] == Edited(states[k], edits[k]);
    var i := FoundAt(states[k], path);
    assert BaselineOf(states[k + 1], path) == Some(source);
    BaselineStays(states, edits, k + 1, j, path);
    ClosedHasNoOverlay(states, edits, j, path);
    var l := FoundAt(states[j], path);
  }

  /** A closed document that was never saved shows what it was created with. */
  lemma UntouchedTextShows(states: seq<Session>, edits: seq<Edit>, j: nat, path: string, source: string)
    requires FromStart(states, edits) && j < |states| && Shows(SnapshotOf(states[0]), path, source, None)
    requires forall m | 0 <= m < j :: !Settles(states, edits, m, path)
    requires ClosedAt(states, edits, j, path)
    ensures Shows(SnapshotOf(states[j]), path, source, None)
  {
    StaysValid(states, edits, j);
    var i := FoundAt(states[0], path);
    BaselineStays(states, edits, 0, j, path);
    ClosedHasNoOverlay(states, edits, j, path);
    var l := FoundAt(states[j], path);
  }
}
