/**
 Which query an answer answers. `ServerSystem` counts identities; here every answer and
 every waiting query is traced back to a request with its kind and its parameters.
 */
module ServerAnswers {
  import opened Wrappers
  import opened WorkspaceSessions
  import opened LanguageServers
  import opened ServerSystem

  datatype Query = Query(id: RequestId, kind: QueryKind, params: Params)

  /** The query a message asks, if it is one. */
  function Asks(m: Message): seq<Query> {
    if m.Call? && m.isVersion2 && m.name.Some? && m.id.Some? && KindOf(m.name.value).Some? then
      [Query(m.id.value, KindOf(m.name.value).value, m.params)]
    else []
  }

  /** What the main loop has been asked in its first `n` steps, in order. */
  function Asked(states: seq<System>, actions: seq<Action>, n: nat): seq<Query>
    requires n <= |states| && n <= |actions|
  {
    if n == 0 then []
    else
      var events := states[n - 1].events;
      Asked(states, actions, n - 1)
          + (if actions[n - 1].MainStep? && events != [] && events[0].Input? && events[0].incoming.Got?
             then Asks(events[0].incoming.message) else [])
  }

  function ReplyTo(o: Output): multiset<Query> {
    if o.Response? && o.outcome.Answer? then multiset{Query(o.id, o.outcome.kind, o.outcome.params)} else multiset{}
  }

  /** The queries answered with a result. */
  function Replies(written: seq<Output>): multiset<Query> {
    if written == [] then multiset{}
    else Replies(written[..|written| - 1]) + ReplyTo(written[|written| - 1])
  }

  function QueryOf(q: PendingQuery): Query { Query(q.id, q.kind, q.params) }

  /** The queries that wait. */
  function Waits(pending: seq<PendingQuery>): multiset<Query> {
    if pending == [] then multiset{}
    else Waits(pending[..|pending| - 1]) + multiset{QueryOf(pending[|pending| - 1])}
  }

  /** Answered with a result, or still to be answered. */
  function Pledged(w: World): multiset<Query> { Replies(w.written) + Waits(w.server.pending) }

  /* ----- one step ----- */

  lemma {:induction false} RepliesConcat(a: seq<Output>, b: seq<Output>)
    ensures Replies(a + b) == Replies(a) + Replies(b)
    decreases |b|
  {
    if b == [] {
      assert a + b == a;
    } else {
      assert (a + b)[..|a + b| - 1] == a + b[..|b| - 1];
      RepliesConcat(a, b[..|b| - 1]);
    }
  }

  lemma RepliesOne(o: Output)
    ensures Replies([o]) == ReplyTo(o)
  {
    assert [o][..0] == [];
  }

  lemma {:induction false} WaitsConcat(a: seq<PendingQuery>, b: seq<PendingQuery>)
    ensures Waits(a + b) == Waits(a) + Waits(b)
    decreases |b|
  {
    if b == [] {
      assert a + b == a;
    } else {
      assert (a + b)[..|a + b| - 1] == a + b[..|b| - 1];
      WaitsConcat(a, b[..|b| - 1]);
    }
  }

  lemma {:induction false} RefusalsReply(pending: seq<PendingQuery>, code: int)
    ensures Replies(Refusals(pending, code)) == multiset{}
  {
    if pending != [] {
      var n := |pending| - 1;
      RefusalsReply(pending[..n], code);
      RepliesConcat(Refusals(pending[..n], code), [Response(pending[n].id, Refused(code))]);
      RepliesOne(Response(pending[n].id, Refused(code)));
    }
  }

  lemma {:induction false} PublishedReply(id: SnapshotId, documents: seq<SnapshotDocument>)
    ensures Replies(Published(id, documents)) == multiset{}
  {
    if documents != [] {
      var last := documents[|documents| - 1];
      PublishedReply(id, documents[..|documents| - 1]);
      RepliesConcat(Published(id, documents[..|documents| - 1]), [Diagnostics(id, last.path, last.version)]);
      RepliesOne(Diagnostics(id, last.path, last.version));
    }
  }

  /** Each waiting query gets its own kind and parameters back. */
  lemma {:induction false} AnswersReply(pending: seq<PendingQuery>, from: Snapshot)
    ensures Replies(Answers(pending, from)) <= Waits(pending)
    ensures (forall q | q in pending :: q.snapshot == from.id) ==> Replies(Answers(pending, from)) == Waits(pending)
  {
    if pending != [] {
      var n := |pending| - 1;
      AnswersReply(pending[..n], from);
      RepliesConcat(Answers(pending[..n], from), [AnswerOne(pending[n], from)]);
      RepliesOne(AnswerOne(pending[n], from));
      assert pending[n] in pending && forall q | q in pending[..n] :: q in pending;
    }
  }

  lemma WaitsMore(pending: seq<PendingQuery>, q: PendingQuery)
    ensures Waits(pending + [q]) == Waits(pending) + multiset{QueryOf(q)}
  {
    assert (pending + [q])[..|pending|] == pending;
  }

  lemma RetainedMore(pending: seq<PendingQuery>, q: PendingQuery, current: SnapshotId)
    ensures Retained(pending + [q], current)
         == if q.snapshot == current then Retained(pending, current) + [q] else Retained(pending, current)
  {
    assert (pending + [q])[..|pending|] == pending;
  }

  lemma StillWithin(kept: multiset<Query>, all: multiset<Query>, one: multiset<Query>)
    requires kept <= all
    ensures kept <= all + one && kept + one <= all + one
  {
  }

  lemma {:induction false} RetainedWaits(pending: seq<PendingQuery>, current: SnapshotId)
    ensures Waits(Retained(pending, current)) <= Waits(pending)
  {
    if pending != [] {
      hide *;
      var front, last := pending[..|pending| - 1], pending[|pending| - 1];
      assert pending == front + [last];
      RetainedWaits(front, current);
      RetainedMore(front, last, current);
      WaitsMore(front, last);
      WaitsMore(Retained(front, current), last);
      StillWithin(Waits(Retained(front, current)), Waits(front), multiset{QueryOf(last)});
    }
  }

  lemma ReplyPledges(w: World, id: RequestId, outcome: Outcome)
    ensures Pledged(Reply(w, id, outcome)) == Pledged(w) + ReplyTo(Response(id, outcome))
  {
    RepliesConcat(w.written, [Response(id, outcome)]);
    RepliesOne(Response(id, outcome));
  }

  lemma InvalidatePledges(w: World)
    ensures Pledged(Invalidate(w)) <= Pledged(w)
  {
    var current := IdOf(w.server.session);
    RepliesConcat(w.written, Refusals(Superseded(w.server.pending, current), CONTENT_MODIFIED));
    RefusalsReply(Superseded(w.server.pending, current), CONTENT_MODIFIED);
    RetainedWaits(w.server.pending, current);
  }

  lemma WaitsWithout(pending: seq<PendingQuery>, i: nat)
    requires i < |pending|
    ensures Waits(pending[..i] + pending[i + 1..]) <= Waits(pending)
  {
    hide Waits;
    WaitsConcat(pending[..i], pending[i + 1..]);
    WaitsConcat(pending[..i], pending[i..]);
    WaitsConcat([pending[i]], pending[i + 1..]);
    assert pending[..i] + pending[i..] == pending && [pending[i]] + pending[i + 1..] == pending[i..];
  }

  lemma CancelPledges(w: World, cancelled: Option<RequestId>)
    ensures Pledged(Cancel(w, cancelled)) <= Pledged(w)
  {
    hide Waits; hide Replies;
    if cancelled.Some? {
      var pending := w.server.pending;
      var i := FirstWith(pending, cancelled.value);
      if i < |pending| {
        ReplyPledges(w.(server := w.server.(pending := pending[..i] + pending[i + 1..])), cancelled.value,
                     Refused(CANCELLED));
        WaitsWithout(pending, i);
      }
    }
  }

  lemma CancelAllPledges(w: World)
    ensures Pledged(CancelAll(w)) <= Pledged(w)
  {
    RepliesConcat(w.written, Refusals(w.server.pending, CANCELLED));
    RefusalsReply(w.server.pending, CANCELLED);
  }

  lemma AcceptPledges(w: World, completed: SnapshotAnalysis)
    ensures Pledged(Accept(w, completed)) <= Pledged(w)
  {
    var from := completed.snapshot;
    if AcceptAnalysis(w.server.session, completed).Some? {
      var published, answers := Published(from.id, from.documents), Answers(w.server.pending, from);
      RepliesConcat(w.written, published + answers);
      RepliesConcat(published, answers);
      PublishedReply(from.id, from.documents);
      AnswersReply(w.server.pending, from);
    }
  }

  lemma NotifyPledges(w: World, name: string, p: Params)
    ensures Pledged(Notify(w, name, p)) <= Pledged(w)
  {
    hide IsEdit; hide EditFor; hide Cancel; hide Invalidate; hide Replies; hide Waits; hide Rejection; hide Edited;
    CancelPledges(w, p.cancelled);
    var edit := EditFor(name, p);
    if edit.None? || Rejection(w.server.session, edit.value).Some? {
      LogPledges(w);
    } else {
      InvalidatePledges(w.(server := w.server.(session := Edited(w.server.session, edit.value))));
    }
  }

  lemma LogPledges(w: World)
    ensures Pledged(Put(w, [LogMessage])) == Pledged(w)
  {
    RepliesConcat(w.written, [LogMessage]);
    RepliesOne(LogMessage);
  }

  lemma AskPledges(w: World, id: RequestId, kind: QueryKind, p: Params)
    ensures Pledged(Ask(w, id, kind, p)) <= Pledged(w) + multiset{Query(id, kind, p)}
  {
    hide QueryOk; hide Replies; hide Waits;
    if !QueryOk(w.server.session, kind, p) {
      ReplyPledges(w, id, Refused(INVALID_PARAMS));
    } else if IsCurrent(w.server) {
      ReplyPledges(w, id, Answer(kind, p, w.server.latest.value));
    } else {
      QueuePledges(w, PendingQuery(id, p, IdOf(w.server.session), kind));
    }
  }

  lemma QueuePledges(w: World, q: PendingQuery)
    ensures Pledged(Schedule(w.(server := w.server.(pending := w.server.pending + [q]))))
        == Pledged(w) + multiset{QueryOf(q)}
  {
    hide SnapshotOf;
    WaitsMore(w.server.pending, q);
  }

  lemma StartPledges(w: World, id: RequestId)
    ensures Pledged(Reply(w.(server := w.server.(lifecycle := Running)), id, Capabilities)) == Pledged(w)
  {
    hide Replies; hide Waits; hide Reply;
    ReplyPledges(w.(server := w.server.(lifecycle := Running)), id, Capabilities);
  }

  lemma ShutdownPledges(w: World, id: RequestId)
    ensures Pledged(Reply(CancelAll(w.(server := w.server.(lifecycle := ShutDown))), id, ShutdownDone)) <= Pledged(w)
  {
    hide Replies; hide Waits; hide Reply; hide CancelAll;
    var down := w.(server := w.server.(lifecycle := ShutDown));
    CancelAllPledges(down);
    ReplyPledges(CancelAll(down), id, ShutdownDone);
  }

  lemma RequestPledges(w: World, id: RequestId, name: string, p: Params)
    ensures Pledged(Request(w, id, name, p)) <=
            Pledged(w) + (match KindOf(name) case Some(kind) => multiset{Query(id, kind, p)} case None => multiset{})
  {
    hide Ask; hide Pledged; hide Reply; hide CancelAll; hide KindOf;
    if name == "initialize" {
      StartPledges(w, id);
      ReplyPledges(w, id, Refused(INVALID_REQUEST));
    } else if name == "shutdown" {
      ShutdownPledges(w, id);
      ReplyPledges(w, id, Refused(INVALID_REQUEST));
    } else if !w.server.lifecycle.Running? {
      ReplyPledges(w, id, Refused(NOT_INITIALIZED));
    } else if KindOf(name).Some? {
      AskPledges(w, id, KindOf(name).value, p);
    } else {
      ReplyPledges(w, id, Refused(METHOD_NOT_FOUND));
    }
  }

  /** One message makes the server answer at most the query it asks. */
  lemma HandlePledges(w: World, m: Message)
    ensures Pledged(Handle(w, m).0) <= Pledged(w) + multiset(Asks(m))
  {
    hide Pledged; hide Request; hide Notify; hide Reply; hide KindOf;
    match m
    case Unparsable => ReplyPledges(w, NullId, Refused(PARSE_ERROR));
    case NotAnObject => ReplyPledges(w, NullId, Refused(INVALID_REQUEST));
    case Call(id, isVersion2, name, params) =>
      if !isVersion2 || name.None? {
        ReplyPledges(w, match id case Some(i) => i case None => NullId, Refused(INVALID_REQUEST));
      } else if id.Some? {
        RequestPledges(w, id.value, name.value, params);
      } else {
        NotifyPledges(w, name.value, params);
      }
  }

  /* ----- whole executions ----- */

  function Ids(queries: seq<Query>): multiset<RequestId> {
    if queries == [] then multiset{} else Ids(queries[..|queries| - 1]) + multiset{queries[|queries| - 1].id}
  }

  lemma AskIsOwed(queries: seq<Query>, m: Message)
    ensures Ids(queries + Asks(m)) <= Ids(queries) + Owes(m)
  {
    hide KindOf;
    if Asks(m) == [] {
      assert queries + Asks(m) == queries;
    } else {
      assert (queries + Asks(m))[..|queries|] == queries;
    }
  }

  ghost predicate Traced(s: System, asked: seq<Query>) {
    Pledged(s.world) <= multiset(asked) && Ids(asked) <= s.owed
  }

  lemma StepTraced(s: System, action: Action, asked: seq<Query>)
    requires Enabled(s, action) && Traced(s, asked)
    ensures Traced(Next(s, action), asked
        + (if action.MainStep? && s.events[0].Input? && s.events[0].incoming.Got?
           then Asks(s.events[0].incoming.message) else []))
  {
    hide Asks; hide Owes; hide Ids; hide Handle; hide Accept; hide Replies; hide Waits;
    if action.MainStep? && s.events[0].Input? && s.events[0].incoming.Got? {
      HandlePledges(s.world, s.events[0].incoming.message);
      AskIsOwed(asked, s.events[0].incoming.message);
    } else {
      assert asked + [] == asked;
      if action.MainStep? && s.events[0].Finished? { AcceptPledges(s.world, s.events[0].analysis); }
    }
  }

  lemma {:induction false} ExecutionTraced(states: seq<System>, actions: seq<Action>, i: nat)
    requires IsExecution(states, actions) && i < |states|
    ensures Traced(states[i], Asked(states, actions, i))
    decreases i
  {
    if i > 0 {
      ExecutionTraced(states, actions, i - 1);
      assert states[i - 1 + 1] == Next(states[i - 1], actions[i - 1]);
      StepTraced(states[i - 1], actions[i - 1], Asked(states, actions, i - 1));
    }
  }

  /** Results written and queries waiting are among the queries asked, each as often at most. */
  lemma AnswersAreAsked(states: seq<System>, actions: seq<Action>, i: nat)
    requires IsExecution(states, actions) && i < |states|
    ensures Replies(states[i].world.written) + Waits(states[i].world.server.pending)
        <= multiset(Asked(states, actions, i))
  {
    ExecutionTraced(states, actions, i);
  }

  lemma {:induction false} ReplyCounts(written: seq<Output>, k: nat)
    requires k < |written| && written[k].Response? && written[k].outcome.Answer?
    ensures Query(written[k].id, written[k].outcome.kind, written[k].outcome.params) in Replies(written)
  {
    if k < |written| - 1 { ReplyCounts(written[..|written| - 1], k); }
  }

  lemma {:induction false} IdCounts(queries: seq<Query>, j: nat)
    requires j < |queries|
    ensures Ids(queries)[queries[j].id] >= 1
  {
    if j < |queries| - 1 { IdCounts(queries[..|queries| - 1], j); }
  }

  lemma {:induction false} TwoCount(queries: seq<Query>, j: nat, k: nat)
    requires j < k < |queries| && queries[j].id == queries[k].id
    ensures Ids(queries)[queries[j].id] >= 2
  {
    if k < |queries| - 1 {
      TwoCount(queries[..|queries| - 1], j, k);
    } else {
      IdCounts(queries[..|queries| - 1], j);
    }
  }

  /** Two queries of one identity are owed two answers. */
  lemma SameIdCounts(asked: seq<Query>, p: Query, q: Query)
    requires p in asked && q in asked && p != q && p.id == q.id
    ensures Ids(asked)[p.id] >= 2
  {
    hide Ids;
    var a: nat :| a < |asked| && asked[a] == p;
    var b: nat :| b < |asked| && asked[b] == q;
    if a < b { TwoCount(asked, a, b); } else { TwoCount(asked, b, a); }
  }

  lemma TracedReply(s: System, asked: seq<Query>, query: Query)
    requires Traced(s, asked) && query in Replies(s.world.written)
    ensures query in asked
    ensures forall id :: Ids(asked)[id] <= s.owed[id]
  {
    hide Replies; hide Waits; hide Ids;
    assert query in Pledged(s.world);
    assert query in multiset(asked);
  }

  /**
   A result is the answer to a query that was asked, with its kind and parameters. If its
   identity was used once, that query is the only one with this identity.
   */
  lemma AnswersAreOwn(states: seq<System>, actions: seq<Action>, i: nat, k: nat)
    requires IsExecution(states, actions) && i < |states| && k < |states[i].world.written|
    requires states[i].world.written[k].Response? && states[i].world.written[k].outcome.Answer?
    ensures var answer := states[i].world.written[k];
            var query := Query(answer.id, answer.outcome.kind, answer.outcome.params);
            && query in Asked(states, actions, i)
            && (states[i].owed[answer.id] == 1 ==>
                  forall q | q in Asked(states, actions, i) && q.id == answer.id :: q == query)
  {
    hide Traced; hide Asked; hide Replies; hide Ids;
    ExecutionTraced(states, actions, i);
    ReplyCounts(states[i].world.written, k);
    hide IsExecution;
    var answer, asked := states[i].world.written[k], Asked(states, actions, i);
    var query := Query(answer.id, answer.outcome.kind, answer.outcome.params);
    TracedReply(states[i], asked, query);
    forall q | q in asked && q.id == answer.id && q != query ensures states[i].owed[answer.id] >= 2 {
      SameIdCounts(asked, query, q);
    }
  }
}
