/**
 * GetCollectionObjects.execute: search with the collection pattern as the
 * query terms, then follow list-session tokens, appending every record of
 * every page. A failing resume is swallowed and the same token is tried again.
 */
module GetCollectionObjects {
  import opened Wrappers
  import opened Meandre
  import opened Support
  import opened FieldSearch

  /** The query: the pattern is the search terms, with the condition `pid eq true`. */
  function CollectionQuery(pattern: string): (q: Query)
    ensures q.resultFields == ["pid", "title"] && q.maxResults == 10000
    ensures q.terms == pattern && q.conditions == [Condition("pid", Eq, "true")]
  {
    Query(ResultFields, MaxResults, pattern, [Condition("pid", Eq, "true")])
  }

  /** The loop goes on while the current page is non-empty and carries a list session. */
  predicate Continues(p: Page)
  {
    |p.records| != 0 && p.session.Some?
  }

  /**
   * The resume calls made, given that the calls `made` led to the page `cur`
   * and that at most `fuel` more calls are allowed.
   */
  function Resumes(resume: Resumer, cur: Page, made: seq<Call>, fuel: nat): (t: Trace)
    ensures |made| <= |t.calls| <= |made| + fuel && (!t.halted ==> |t.calls| == |made| + fuel)
    decreases fuel
  {
    if !Continues(cur) then Trace(made, true)
    else if fuel == 0 then Trace(made, false)
    else
      var c := Call(cur.session.value, resume(|made|, cur.session.value));
      Resumes(resume, Next(cur, c), made + [c], fuel - 1)
  }

  /** A page that continues, under a spare allowance, makes one call with its token and goes on from the reply. */
  lemma ResumesStep(resume: Resumer, cur: Page, made: seq<Call>, fuel: nat)
    requires Continues(cur) && fuel > 0
    ensures var c := Call(cur.session.value, resume(|made|, cur.session.value));
      Resumes(resume, cur, made, fuel) == Resumes(resume, Next(cur, c), made + [c], fuel - 1)
  {
  }

  /** Every record of the first page and of each delivered page, in fetch order, unfiltered. */
  function CollectedRecords(first: Page, calls: seq<Call>): seq<Record>
  {
    first.records + Gathered(calls)
  }

  method Execute(pattern: string, find: Finder, resume: Resumer, fuel: nat) returns (out: Collected)
    ensures find(CollectionQuery(pattern)).None? ==> out == Raised(ComponentExecution(RemoteFault))
    ensures find(CollectionQuery(pattern)).Some? ==>
      var t := Resumes(resume, find(CollectionQuery(pattern)).value, [], fuel);
      if t.halted then out.Pushed? && Holds(out.list, CollectedRecords(find(CollectionQuery(pattern)).value, t.calls))
      else out == StillLooping
  {
    var reply := find(CollectionQuery(pattern));
    if reply.None? {
      return Raised(ComponentExecution(RemoteFault));
    }
    var result := reply.value;
    ghost var first := result;
    var alist := AppendAll([], [], result.records);
    ghost var calls: seq<Call> := [];
    if result.session.Some? {
      var token := result.session.value;
      var n := 0;
      while |result.records| != 0
        invariant n == |calls| <= fuel
        invariant Resumes(resume, first, [], fuel) == Resumes(resume, result, calls, fuel - |calls|)
        invariant Holds(alist, CollectedRecords(first, calls))
        decreases fuel - n
      {
        if result.session.Some? {
          token := result.session.value;
        } else {
          break;
        }
        if n == fuel {
          return StillLooping;
        }
        var r;
        r, alist, calls := ResumeOnce(resume, first, token, n, alist, calls);
        n := n + 1;
        if r.Some? {
          result := r.value;
        }
        // otherwise the Throwable is swallowed; `result` still holds the same token
      }
    }
    return Pushed(alist);
  }

  /** One `resumeFindObjects` call and every record of the page it returns added to the list. */
  method ResumeOnce(resume: Resumer, ghost first: Page, token: string, n: nat,
                    alist: seq<CorpusObject>, ghost calls: seq<Call>)
    returns (r: Option<Page>, alist': seq<CorpusObject>, ghost calls': seq<Call>)
    requires n == |calls|
    requires Holds(alist, CollectedRecords(first, calls))
    ensures r == resume(n, token) && calls' == calls + [Call(token, r)]
    ensures r.None? ==> alist' == alist
    ensures Holds(alist', CollectedRecords(first, calls'))
  {
    r := resume(n, token);
    calls' := calls + [Call(token, r)];
    assert calls'[..|calls'| - 1] == calls;
    if r.None? {
      assert CollectedRecords(first, calls') == CollectedRecords(first, calls);
      alist' := alist;
      return;
    }
    alist' := AppendAll(alist, CollectedRecords(first, calls), r.value.records);
    assert CollectedRecords(first, calls') == CollectedRecords(first, calls) + r.value.records;
  }

  /** Every resume call passes the token of the page the loop held just before it. */
  lemma {:induction false} ResumesFollowTokens(resume: Resumer, first: Page, cur: Page, made: seq<Call>, fuel: nat)
    requires FollowsTokens(first, made) && cur == Current(first, made)
    ensures FollowsTokens(first, Resumes(resume, cur, made, fuel).calls)
    decreases fuel
  {
    if Continues(cur) && fuel > 0 {
      var c := Call(cur.session.value, resume(|made|, cur.session.value));
      ResumesStep(resume, cur, made, fuel);
      FollowsTokensSnoc(first, made, c);
      ResumesFollowTokens(resume, first, Next(cur, c), made + [c], fuel - 1);
    }
  }

  /** From the first page on, each call uses the token of the most recent page; a failed call is retried. */
  lemma TokensFollowed(resume: Resumer, first: Page, fuel: nat)
    ensures FollowsTokens(first, Resumes(resume, first, [], fuel).calls)
  {
    ResumesFollowTokens(resume, first, first, [], fuel);
  }

  /**
   * The loop makes a call exactly while the current page is non-empty and has
   * a list session; it halts at the first page that is empty or has none, and
   * otherwise runs until its allowance of calls is spent.
   */
  lemma {:induction false} ResumesStopRule(resume: Resumer, first: Page, made: seq<Call>, fuel: nat)
    requires forall i :: 0 <= i < |made| ==> Continues(Current(first, made[..i]))
    ensures var t := Resumes(resume, Current(first, made), made, fuel);
      && (forall i :: 0 <= i < |t.calls| ==> Continues(Current(first, t.calls[..i])))
      && (t.halted <==> !Continues(Current(first, t.calls)))
      && (!t.halted ==> |t.calls| == |made| + fuel)
    decreases fuel
  {
    var cur := Current(first, made);
    if Continues(cur) && fuel > 0 {
      var c := Call(cur.session.value, resume(|made|, cur.session.value));
      var made' := made + [c];
      assert made'[..|made|] == made;
      forall i | 0 <= i < |made'|
        ensures Continues(Current(first, made'[..i]))
      {
        if i < |made| {
          assert made'[..i] == made[..i];
        }
      }
      ResumesStep(resume, cur, made, fuel);
      assert Current(first, made') == Next(cur, c);
      ResumesStopRule(resume, first, made', fuel - 1);
    }
  }

  /** Each recorded reply is the server's answer to that call, made with its token as the call of its index. */
  lemma {:induction false} ResumesRecordReplies(resume: Resumer, cur: Page, made: seq<Call>, fuel: nat)
    requires forall i :: 0 <= i < |made| ==> made[i].reply == resume(i, made[i].token)
    ensures var t := Resumes(resume, cur, made, fuel);
      forall i :: 0 <= i < |t.calls| ==> t.calls[i].reply == resume(i, t.calls[i].token)
    decreases fuel
  {
    if Continues(cur) && fuel > 0 {
      var c := Call(cur.session.value, resume(|made|, cur.session.value));
      ResumesStep(resume, cur, made, fuel);
      ResumesRecordReplies(resume, Next(cur, c), made + [c], fuel - 1);
    }
  }

  /**
   * From the first page on, a call is made exactly while the page is non-empty
   * and has a session, the loop halts at the first page where that fails or
   * spends its whole allowance, and every reply recorded is `resume`'s answer.
   */
  lemma StopRule(resume: Resumer, first: Page, fuel: nat)
    ensures var t := Resumes(resume, first, [], fuel);
      && (forall i :: 0 <= i < |t.calls| ==> Continues(Current(first, t.calls[..i])))
      && (t.halted <==> !Continues(Current(first, t.calls)))
      && (!t.halted ==> |t.calls| == fuel)
      && (forall i :: 0 <= i < |t.calls| ==> t.calls[i].reply == resume(i, t.calls[i].token))
  {
    ResumesStopRule(resume, first, [], fuel);
    ResumesRecordReplies(resume, first, [], fuel);
  }

  /** Without a list session on the first page, exactly the first page is pushed and no resume call is made. */
  lemma FirstPageOnly(resume: Resumer, first: Page, fuel: nat)
    requires first.session.None?
    ensures Resumes(resume, first, [], fuel) == Trace([], true)
    ensures CollectedRecords(first, []) == first.records
  {
  }

  /** A record is pushed exactly when the first page or some resumed page holds it: no filter is applied. */
  lemma CollectedMembers(first: Page, calls: seq<Call>, r: Record)
    ensures r in CollectedRecords(first, calls)
       <==> r in first.records || exists i :: 0 <= i < |calls| && r in Delivered(calls[i])
  {
    GatheredMembers(calls, r);
  }
}
