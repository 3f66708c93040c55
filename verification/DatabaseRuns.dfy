/** The order in which the worker serves: first come, first served, up to the shutdown request. */
module DatabaseRuns {
  import opened Store
  import opened StoreRuns
  import opened Database

  function BeforeShutdown(rs: seq<Request>): (r: seq<Request>)
    ensures |r| <= |rs| && r == rs[..|r|]
    ensures |r| < |rs| ==> rs[|r|].Shutdown?
  {
    if rs == [] || rs[0].Shutdown? then [] else [rs[0]] + BeforeShutdown(rs[1..])
  }

  ghost predicate Lookups(rs: seq<Request>) {
    forall i :: 0 <= i < |rs| ==> rs[i].GetPicture?
  }

  lemma {:induction false} BeforeShutdownConcat(a: seq<Request>, b: seq<Request>)
    requires Lookups(b)
    ensures BeforeShutdown(a + b)
         == if |BeforeShutdown(a)| < |a| then BeforeShutdown(a) else a + b
  {
    if a == [] {
      assert a + b == b;
      LookupsRun(b);
    } else if !a[0].Shutdown? {
      assert (a + b)[1..] == a[1..] + b;
      BeforeShutdownConcat(a[1..], b);
      assert [a[0]] + (a[1..] + b) == a + b;
    }
  }

  lemma {:induction false} LookupsRun(rs: seq<Request>)
    requires Lookups(rs)
    ensures BeforeShutdown(rs) == rs
  {
    if rs != [] {
      LookupsRun(rs[1..]);
    }
  }

  lemma {:induction false} HandleAllConcat(t: Tables, a: seq<Request>, b: seq<Request>)
    requires !HandleAll(t, a).threw
    ensures var f := HandleAll(t, a); var g := HandleAll(f.tables, b);
      HandleAll(t, a + b) == Folded(g.tables, f.responses + g.responses, f.requeued + g.requeued, g.threw)
    decreases |a|
  {
    hide Handle;
    if a == [] {
      assert a + b == b;
    } else {
      assert (a + b)[1..] == a[1..] + b;
      var o := Handle(t, a[0]);
      HandleAllConcat(o.tables, a[1..], b);
      var f := HandleAll(o.tables, a[1..]);
      var g := HandleAll(f.tables, b);
      assert o.responses + (f.responses + g.responses) == (o.responses + f.responses) + g.responses;
      assert o.requeued + (f.requeued + g.requeued) == (o.requeued + f.requeued) + g.requeued;
    }
  }

  lemma LookupOutcome(t: Tables, r: Request)
    requires r.GetPicture?
    ensures var o := Handle(t, r); o.tables == t && o.requeued == [] && !o.threw
  {
  }

  /** Lookups change nothing and re-queue nothing. */
  lemma {:induction false} LookupsHandled(t: Tables, rs: seq<Request>)
    requires Lookups(rs)
    ensures var f := HandleAll(t, rs); f.tables == t && f.requeued == [] && !f.threw
    decreases |rs|
  {
    hide Handle;
    if rs != [] {
      LookupOutcome(t, rs[0]);
      LookupsHandled(t, rs[1..]);
    }
  }

  /** What the worker has done when it stops or waits, its queue having been `w.requests`. */
  function Served(w: Worker): Worker {
    var before := BeforeShutdown(w.requests);
    var f := HandleAll(w.tables, before);
    if |before| < |w.requests| then
      Worker(f.tables, w.requests[|before| + 1..] + f.requeued, w.responses + f.responses, true, false)
    else
      var g := HandleAll(f.tables, f.requeued);
      Worker(f.tables, [], w.responses + f.responses + g.responses, false, false)
  }

  /**
   * The worker handles exactly the requests queued before the shutdown, in order. Without a shutdown request
   * it goes on with the lookups they re-queued and then waits on an empty queue.
   */
  lemma {:induction false} RunServesInOrder(w: Worker)
    requires !w.shutdown && !w.stopped
    requires !HandleAll(w.tables, BeforeShutdown(w.requests)).threw
    ensures Run(w) == Served(w)
    decreases Weight(w.requests)
  {
    hide Handle, Weight;
    if w.requests == [] {
    } else if w.requests[0].Shutdown? {
      ShutdownOutcome(w.tables);
      RunStep(w);
    } else {
      ServeDecreases(w);
      RunStep(w);
      OneRound(w);
      RunServesInOrder(Serve(w));
    }
  }

  lemma ShutdownOutcome(t: Tables)
    ensures Handle(t, Shutdown) == Outcome(t, [], [], false)
  {
  }

  lemma FirstHandled(t: Tables, r: Request, rs: seq<Request>)
    requires !HandleAll(t, [r] + rs).threw
    ensures !Handle(t, r).threw && !HandleAll(Handle(t, r).tables, rs).threw
    ensures var o := Handle(t, r); var f := HandleAll(o.tables, rs);
      HandleAll(t, [r] + rs) == Folded(f.tables, o.responses + f.responses, o.requeued + f.requeued, false)
  {
    hide Handle;
    assert ([r] + rs)[1..] == rs;
  }

  lemma FirstBefore(r: Request, rest: seq<Request>)
    requires !r.Shutdown?
    ensures BeforeShutdown([r] + rest) == [r] + BeforeShutdown(rest)
  {
    assert ([r] + rest)[1..] == rest;
  }

  /** Serving one request first makes no difference to the outcome. */
  lemma OneRound(w: Worker)
    requires Running(w) && !w.requests[0].Shutdown?
    requires !HandleAll(w.tables, BeforeShutdown(w.requests)).threw
    ensures !Serve(w).shutdown && !Serve(w).stopped
    ensures !HandleAll(Serve(w).tables, BeforeShutdown(Serve(w).requests)).threw
    ensures Served(Serve(w)) == Served(w)
  {
    hide Handle, HandleAll, BeforeShutdown;
    var r, rest := w.requests[0], w.requests[1..];
    var o := Handle(w.tables, r);
    assert w.requests == [r] + rest;
    HandleAnswers(w.tables, r);
    BeforeShutdownConcat(rest, o.requeued);
    FirstBefore(r, rest);
    var before := BeforeShutdown(rest);
    FirstHandled(w.tables, r, before);
    if |before| < |rest| {
      RoundBeforeShutdown(w);
    } else {
      RoundToTheEnd(w);
    }
  }

  lemma RoundBeforeShutdown(w: Worker)
    requires Running(w) && !w.requests[0].Shutdown? && !Handle(w.tables, w.requests[0]).threw
    requires |BeforeShutdown(w.requests)| < |w.requests|
    requires BeforeShutdown(Serve(w).requests) == BeforeShutdown(w.requests)[1..]
    requires !HandleAll(w.tables, BeforeShutdown(w.requests)).threw
    ensures Served(Serve(w)) == Served(w)
  {
    hide Handle, HandleAll, BeforeShutdown;
    var r, rest := w.requests[0], w.requests[1..];
    var o := Handle(w.tables, r);
    assert w.requests == [r] + rest;
    FirstBefore(r, rest);
    var before := BeforeShutdown(rest);
    FirstHandled(w.tables, r, before);
    var f := HandleAll(o.tables, before);
    assert (w.responses + o.responses) + f.responses == w.responses + (o.responses + f.responses);
    assert (rest + o.requeued)[|before| + 1..] + f.requeued
        == w.requests[|before| + 2..] + (o.requeued + f.requeued);
  }

  lemma RoundToTheEnd(w: Worker)
    requires Running(w) && !w.requests[0].Shutdown? && !Handle(w.tables, w.requests[0]).threw
    requires BeforeShutdown(w.requests) == w.requests
    requires BeforeShutdown(Serve(w).requests) == Serve(w).requests
    requires Lookups(Handle(w.tables, w.requests[0]).requeued)
    requires !HandleAll(w.tables, w.requests).threw
    ensures !HandleAll(Serve(w).tables, Serve(w).requests).threw
    ensures Served(Serve(w)) == Served(w)
  {
    hide Handle, HandleAll, BeforeShutdown;
    var r, rest := w.requests[0], w.requests[1..];
    var o := Handle(w.tables, r);
    assert w.requests == [r] + rest;
    FirstHandled(w.tables, r, rest);
    var f := HandleAll(o.tables, rest);
    OneAnswerPerJoin(o.tables, rest);
    LookupsHandled(f.tables, o.requeued);
    LookupsHandled(f.tables, f.requeued);
    HandleAllConcat(o.tables, rest, o.requeued);
    HandleAllConcat(f.tables, o.requeued, f.requeued);
    var h, g := HandleAll(f.tables, o.requeued), HandleAll(f.tables, f.requeued);
    assert f.requeued + [] == f.requeued;
    FourParts(w.responses, o.responses, f.responses, h.responses, g.responses);
  }

  lemma FourParts(a: seq<Response>, b: seq<Response>, c: seq<Response>, d: seq<Response>, e: seq<Response>)
    ensures (a + b) + (c + d) + e == a + (b + c) + (d + e)
  {
  }

  /** Each join queued before the shutdown is answered once, in order, and no other join is. */
  lemma RunAnswersJoins(w: Worker)
    requires !w.shutdown && !w.stopped
    requires !HandleAll(w.tables, BeforeShutdown(w.requests)).threw
    ensures Answers(Run(w).responses) == Answers(w.responses) + Joins(BeforeShutdown(w.requests))
  {
    hide HandleAll, Answers, Joins, Run;
    var before := BeforeShutdown(w.requests);
    var f := HandleAll(w.tables, before);
    RunServesInOrder(w);
    OneAnswerPerJoin(w.tables, before);
    AnswersConcat(w.responses, f.responses);
    if |before| == |w.requests| {
      var g := HandleAll(f.tables, f.requeued);
      LookupsHandled(f.tables, f.requeued);
      OneAnswerPerJoin(f.tables, f.requeued);
      LookupsAreNoJoins(f.requeued);
      AnswersConcat(w.responses + f.responses, g.responses);
    }
  }

  lemma {:induction false} LookupsAreNoJoins(rs: seq<Request>)
    requires Lookups(rs)
    ensures Joins(rs) == []
    decreases |rs|
  {
    if rs != [] {
      LookupsAreNoJoins(rs[1..]);
    }
  }
}
