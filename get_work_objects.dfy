/**
 * GetWorkObjects.execute: search every object, keep those whose pid starts
 * with the `collection_pattern` property, and follow list-session tokens in a
 * nested loop. The emptiness of the current page is looked at only by the
 * outer loop, which is reached at the start and after a swallowed failure.
 */
module GetWorkObjects {
  import opened Wrappers
  import opened Meandre
  import opened Support
  import opened FieldSearch

  /** The query: terms `*` and the condition `* eq true`; the pattern is not part of it. */
  function WorkQuery(): (q: Query)
    ensures q.resultFields == ["pid", "title"] && q.maxResults == 10000
    ensures q.terms == "*" && q.conditions == [Condition("*", Eq, "true")]
  {
    Query(ResultFields, MaxResults, "*", [Condition("*", Eq, "true")])
  }

  /**
   * Whether another resume call follows from page `p`. `outer` says control
   * is at the head of the outer loop, which also requires a non-empty page;
   * the inner loop looks only at the list session.
   */
  predicate Continues(p: Page, outer: bool)
  {
    p.session.Some? && (!outer || |p.records| != 0)
  }

  /**
   * The resume calls made, given that the calls `made` led to page `cur`
   * (control at the outer loop head when `outer`) and that at most `fuel`
   * more calls are allowed. A call that throws sends control back to the
   * outer loop head with `cur` unchanged.
   */
  function Resumes(resume: Resumer, cur: Page, outer: bool, made: seq<Call>, fuel: nat): (t: Trace)
    ensures |made| <= |t.calls| <= |made| + fuel && (!t.halted ==> |t.calls| == |made| + fuel)
    decreases fuel
  {
    if !Continues(cur, outer) then Trace(made, true)
    else if fuel == 0 then Trace(made, false)
    else
      var c := Call(cur.session.value, resume(|made|, cur.session.value));
      Resumes(resume, Next(cur, c), c.reply.None?, made + [c], fuel - 1)
  }

  /** On a non-empty or sessionless page the two loop heads behave alike. */
  lemma EitherHead(resume: Resumer, cur: Page, made: seq<Call>, fuel: nat)
    requires cur.session.None? || |cur.records| != 0
    ensures Resumes(resume, cur, false, made, fuel) == Resumes(resume, cur, true, made, fuel)
  {
  }

  /** The pushed records: those of the first page and of each delivered page whose pid starts with the pattern. */
  function Matching(first: Page, calls: seq<Call>, pattern: string): seq<Record>
  {
    Filter(first.records + Gathered(calls), pattern)
  }

  method Execute(pattern: string, find: Finder, resume: Resumer, fuel: nat) returns (out: Collected)
    ensures find(WorkQuery()).None? ==> out == Raised(ComponentExecution(RemoteFault))
    ensures find(WorkQuery()).Some? && find(WorkQuery()).value.session.None? ==>
      out == Raised(ComponentExecution(NullListSession))
    ensures find(WorkQuery()).Some? && find(WorkQuery()).value.session.Some? ==>
      var t := Resumes(resume, find(WorkQuery()).value, true, [], fuel);
      if t.halted then out.Pushed? && Holds(out.list, Matching(find(WorkQuery()).value, t.calls, pattern))
      else out == StillLooping
  {
    var reply := find(WorkQuery());
    if reply.None? {
      return Raised(ComponentExecution(RemoteFault));
    }
    var result := reply.value;
    var alist := AppendMatching([], [], result.records, pattern);
    assert [] + result.records == result.records;
    // `result.getListSession().getToken()` is not guarded against a null session
    if result.session.None? {
      return Raised(ComponentExecution(NullListSession));
    }
    out := FollowPages(pattern, resume, fuel, result, alist);
  }

  /**
   * `execute` with the first list session guarded as GetCollectionObjects
   * guards it: a search whose results fit on one page pushes that page.
   */
  method ExecuteGuarded(pattern: string, find: Finder, resume: Resumer, fuel: nat) returns (out: Collected)
    ensures find(WorkQuery()).None? ==> out == Raised(ComponentExecution(RemoteFault))
    ensures find(WorkQuery()).Some? ==>
      var t := Resumes(resume, find(WorkQuery()).value, true, [], fuel);
      if t.halted then out.Pushed? && Holds(out.list, Matching(find(WorkQuery()).value, t.calls, pattern))
      else out == StillLooping
  {
    var reply := find(WorkQuery());
    if reply.None? {
      return Raised(ComponentExecution(RemoteFault));
    }
    var result := reply.value;
    var alist := AppendMatching([], [], result.records, pattern);
    assert [] + result.records == result.records;
    out := FollowPages(pattern, resume, fuel, result, alist);
  }

  /** With the guard, a first page without a list session is pushed, filtered, and nothing is resumed. */
  lemma GuardedSinglePage(resume: Resumer, first: Page, pattern: string, fuel: nat)
    requires first.session.None?
    ensures Resumes(resume, first, true, [], fuel) == Trace([], true)
    ensures Matching(first, [], pattern) == Filter(first.records, pattern)
  {
    assert first.records + Gathered([]) == first.records;
  }

  /** The outer loop, from the first page and the list built from it, up to the push. */
  method FollowPages(pattern: string, resume: Resumer, fuel: nat, first: Page, alist0: seq<CorpusObject>)
    returns (out: Collected)
    requires Holds(alist0, Filter(first.records, pattern))
    ensures var t := Resumes(resume, first, true, [], fuel);
      if t.halted then out.Pushed? && Holds(out.list, Matching(first, t.calls, pattern))
      else out == StillLooping
  {
    var result := first;
    var alist := alist0;
    assert first.records + Gathered([]) == first.records;
    var n := 0;
    ghost var calls: seq<Call> := [];
    while |result.records| != 0
      invariant n == |calls| <= fuel
      invariant Resumes(resume, first, true, [], fuel) == Resumes(resume, result, true, calls, fuel - n)
      invariant Holds(alist, Matching(first, calls, pattern))
      decreases fuel - n
    {
      var token;
      if result.session.Some? {
        token := result.session.value;
      } else {
        break;
      }
      var exhausted;
      result, n, alist, calls, exhausted := FollowSession(pattern, resume, fuel, first, result, n, alist, calls);
      if exhausted {
        return StillLooping;
      }
    }
    return Pushed(alist);
  }

  /**
   * The `try` block of the outer loop: the inner loop follows list sessions
   * until a page has none, or until a resume call throws, which is swallowed.
   * `exhausted` reports that the allowance of `fuel` calls ran out first.
   */
  method FollowSession(pattern: string, resume: Resumer, fuel: nat, ghost first: Page,
                       result: Page, n: nat, alist: seq<CorpusObject>, ghost calls: seq<Call>)
    returns (result': Page, n': nat, alist': seq<CorpusObject>, ghost calls': seq<Call>, exhausted: bool)
    requires n == |calls| <= fuel && |result.records| != 0 && result.session.Some?
    requires Resumes(resume, first, true, [], fuel) == Resumes(resume, result, true, calls, fuel - n)
    requires Holds(alist, Matching(first, calls, pattern))
    ensures exhausted ==> !Resumes(resume, first, true, [], fuel).halted
    ensures !exhausted ==> n < n' == |calls'| <= fuel
    ensures !exhausted ==> Resumes(resume, first, true, [], fuel) == Resumes(resume, result', true, calls', fuel - n')
    ensures !exhausted ==> Holds(alist', Matching(first, calls', pattern))
  {
    result', n', alist', calls', exhausted := result, n, alist, calls, false;
    ghost var outer := true;
    while result'.session.Some?
      invariant n <= n' == |calls'| <= fuel
      invariant n == n' ==> outer && result'.session.Some?
      invariant outer ==> |result'.records| != 0
      invariant Resumes(resume, first, true, [], fuel) == Resumes(resume, result', outer, calls', fuel - n')
      invariant Holds(alist', Matching(first, calls', pattern))
      decreases fuel - n'
    {
      var token := result'.session.value;
      if n' == fuel {
        return result', n', alist', calls', true;
      }
      var r;
      r, alist', calls' := ResumeOnce(pattern, resume, first, token, n', alist', calls');
      n' := n' + 1;
      if r.None? {
        // the Throwable is swallowed: back to the outer loop head, `result` unchanged
        return;
      }
      result' := r.value;
      outer := false;
    }
    if !outer {
      EitherHead(resume, result', calls', fuel - n');
    }
  }

  /** One `resumeFindObjects` call and the matching records of the page it returns added to the list. */
  method ResumeOnce(pattern: string, resume: Resumer, ghost first: Page, token: string, n: nat,
                    alist: seq<CorpusObject>, ghost calls: seq<Call>)
    returns (r: Option<Page>, alist': seq<CorpusObject>, ghost calls': seq<Call>)
    requires n == |calls|
    requires Holds(alist, Matching(first, calls, pattern))
    ensures r == resume(n, token) && calls' == calls + [Call(token, r)]
    ensures r.None? ==> alist' == alist
    ensures Holds(alist', Matching(first, calls', pattern))
  {
    r := resume(n, token);
    calls' := calls + [Call(token, r)];
    assert calls'[..|calls'| - 1] == calls;
    if r.None? {
      assert first.records + Gathered(calls') == first.records + Gathered(calls);
      alist' := alist;
      return;
    }
    alist' := AppendMatching(alist, first.records + Gathered(calls), r.value.records, pattern);
    assert first.records + Gathered(calls') == first.records + Gathered(calls) + r.value.records;
  }

  /** Control is at the outer loop head at the start and after a call that threw. */
  predicate AtOuterHead(calls: seq<Call>)
  {
    calls == [] || calls[|calls| - 1].reply.None?
  }

  /** Every resume call passes the token of the page the loops held just before it. */
  lemma {:induction false} ResumesFollowTokens(resume: Resumer, first: Page, made: seq<Call>, fuel: nat)
    requires FollowsTokens(first, made)
    ensures FollowsTokens(first, Resumes(resume, Current(first, made), AtOuterHead(made), made, fuel).calls)
    decreases fuel
  {
    var cur := Current(first, made);
    if Continues(cur, AtOuterHead(made)) && fuel > 0 {
      var c := Call(cur.session.value, resume(|made|, cur.session.value));
      FollowsTokensSnoc(first, made, c);
      ResumesFollowTokens(resume, first, made + [c], fuel - 1);
    }
  }

  /** From the first page on, each call uses the token of the most recent page; a failed call is retried. */
  lemma TokensFollowed(resume: Resumer, first: Page, fuel: nat)
    ensures FollowsTokens(first, Resumes(resume, first, true, [], fuel).calls)
  {
    ResumesFollowTokens(resume, first, [], fuel);
  }

  /**
   * A call is made exactly while the current page has a list session and,
   * when control is at the outer loop head, is non-empty; the loops halt at
   * the first state where that fails, and otherwise run until the allowance
   * of calls is spent.
   */
  lemma {:induction false} ResumesStopRule(resume: Resumer, first: Page, made: seq<Call>, fuel: nat)
    requires forall i :: 0 <= i < |made| ==> Continues(Current(first, made[..i]), AtOuterHead(made[..i]))
    ensures var t := Resumes(resume, Current(first, made), AtOuterHead(made), made, fuel);
      && (forall i :: 0 <= i < |t.calls| ==> Continues(Current(first, t.calls[..i]), AtOuterHead(t.calls[..i])))
      && (t.halted <==> !Continues(Current(first, t.calls), AtOuterHead(t.calls)))
      && (!t.halted ==> |t.calls| == |made| + fuel)
    decreases fuel
  {
    var cur := Current(first, made);
    if Continues(cur, AtOuterHead(made)) && fuel > 0 {
      var c := Call(cur.session.value, resume(|made|, cur.session.value));
      var made' := made + [c];
      assert made'[..|made|] == made;
      forall i | 0 <= i < |made'|
        ensures Continues(Current(first, made'[..i]), AtOuterHead(made'[..i]))
      {
        if i < |made| {
          assert made'[..i] == made[..i];
        }
      }
      ResumesStopRule(resume, first, made', fuel - 1);
    }
  }

  /** Each recorded reply is the server's answer to that call, made with its token as the call of its index. */
  lemma {:induction false} ResumesRecordReplies(resume: Resumer, cur: Page, outer: bool, made: seq<Call>, fuel: nat)
    requires forall i :: 0 <= i < |made| ==> made[i].reply == resume(i, made[i].token)
    ensures var t := Resumes(resume, cur, outer, made, fuel);
      forall i :: 0 <= i < |t.calls| ==> t.calls[i].reply == resume(i, t.calls[i].token)
    decreases fuel
  {
    if Continues(cur, outer) && fuel > 0 {
      var c := Call(cur.session.value, resume(|made|, cur.session.value));
      assert Resumes(resume, cur, outer, made, fuel) == Resumes(resume, Next(cur, c), c.reply.None?, made + [c], fuel - 1);
      ResumesRecordReplies(resume, Next(cur, c), c.reply.None?, made + [c], fuel - 1);
    }
  }

  /**
   * From the first page on, a call is made exactly while the page has a
   * session and, at the outer loop head, is non-empty; the loops halt at the
   * first state where that fails or spend their whole allowance, and every
   * reply recorded is `resume`'s answer.
   */
  lemma StopRule(resume: Resumer, first: Page, fuel: nat)
    ensures var t := Resumes(resume, first, true, [], fuel);
      && (forall i :: 0 <= i < |t.calls| ==> Continues(Current(first, t.calls[..i]), AtOuterHead(t.calls[..i])))
      && (t.halted <==> !Continues(Current(first, t.calls), AtOuterHead(t.calls)))
      && (!t.halted ==> |t.calls| == fuel)
      && (forall i :: 0 <= i < |t.calls| ==> t.calls[i].reply == resume(i, t.calls[i].token))
  {
    ResumesStopRule(resume, first, [], fuel);
    ResumesRecordReplies(resume, first, true, [], fuel);
  }

  /** Once resumption has started, a page that arrives empty but with a list session is still followed. */
  lemma EmptyPageWithSessionIsFollowed(resume: Resumer, first: Page, fuel: nat, i: nat)
    requires Resumes(resume, first, true, [], fuel).halted
    requires i < |Resumes(resume, first, true, [], fuel).calls|
    requires Resumes(resume, first, true, [], fuel).calls[i].reply.Some?
    requires Resumes(resume, first, true, [], fuel).calls[i].reply.value.session.Some?
    ensures i + 1 < |Resumes(resume, first, true, [], fuel).calls|
  {
    StopRule(resume, first, fuel);
  }

  /** An empty first page is pushed as an empty list without any resume call. */
  lemma EmptyFirstPage(resume: Resumer, first: Page, pattern: string, fuel: nat)
    requires |first.records| == 0
    ensures Resumes(resume, first, true, [], fuel) == Trace([], true)
    ensures Matching(first, [], pattern) == []
  {
  }

  /**
   * A record is pushed exactly when its pid starts with the pattern and the
   * first page or some resumed page holds it.
   */
  lemma MatchingMembers(first: Page, calls: seq<Call>, pattern: string, r: Record)
    ensures r in Matching(first, calls, pattern)
       <==> pattern <= r.pid && (r in first.records || exists i :: 0 <= i < |calls| && r in Delivered(calls[i]))
  {
    FilterMembers(first.records + Gathered(calls), pattern, r);
    GatheredMembers(calls, r);
  }
}
