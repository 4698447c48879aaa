/**
 * Fedora's paged field search as the two collectors see it: a first
 * `findObjects` result, then `resumeFindObjects` calls that follow the
 * list-session token. The server is an oracle; this module holds the values
 * the collectors exchange with it and the facts shared by both collectors.
 */
module FieldSearch {
  import opened Wrappers
  import opened Meandre
  import opened Support

  /** One entry of a result list: the object's pid and its first title. */
  datatype Record = Record(pid: string, title: string)

  /** A FieldSearchResult: its result list and, when the server holds more, the list-session token. */
  datatype Page = Page(records: seq<Record>, session: Option<string>)

  datatype Operator = Eq

  datatype Condition = Condition(property: string, operator: Operator, value: string)

  /** The arguments of `findObjects`: result fields, maximum result count and the FieldSearchQuery. */
  datatype Query = Query(resultFields: seq<string>, maxResults: nat, terms: string, conditions: seq<Condition>)

  /** `findObjects`: the first page, or None when the call throws. */
  type Finder = Query -> Option<Page>

  /**
   * `resumeFindObjects`: the page for a token, or None when the call throws.
   * The first argument counts the resume calls made before this one, so a
   * token that failed once may succeed when it is retried.
   */
  type Resumer = (nat, string) -> Option<Page>

  /** One `resumeFindObjects` call: the token it was given and what it returned. */
  datatype Call = Call(token: string, reply: Option<Page>)

  /**
   * The resume calls a collector makes, in order; `halted` is false when the
   * collector was still looping after its allowance of calls. The `n`-th call
   * (from 0) passes `n` to the Resumer.
   */
  datatype Trace = Trace(calls: seq<Call>, halted: bool)

  /** What `execute` ends with: the list it pushed, the exception it threw, or still looping. */
  datatype Collected = Pushed(list: seq<CorpusObject>) | Raised(thrown: Thrown) | StillLooping

  /** The fields requested by both collectors, and their result limit. */
  const ResultFields: seq<string> := ["pid", "title"]
  const MaxResults: nat := 10000

  /** The collector's `result` after a call: the page it returned, or the old one if it threw. */
  function Next(cur: Page, c: Call): Page
  {
    if c.reply.Some? then c.reply.value else cur
  }

  /** The collector's `result` after the calls: the last page that arrived, or the first page. */
  function Current(first: Page, calls: seq<Call>): Page
    decreases |calls|
  {
    if calls == [] then first else Next(Current(first, calls[..|calls| - 1]), calls[|calls| - 1])
  }

  /** The records a call delivered. */
  function Delivered(c: Call): seq<Record>
  {
    if c.reply.Some? then c.reply.value.records else []
  }

  /** The records of every page the calls delivered, in fetch order. */
  function Gathered(calls: seq<Call>): seq<Record>
    decreases |calls|
  {
    if calls == [] then [] else Gathered(calls[..|calls| - 1]) + Delivered(calls[|calls| - 1])
  }

  /** Every call passes the token of the page the collector held just before it. */
  ghost predicate FollowsTokens(first: Page, calls: seq<Call>)
  {
    forall i :: 0 <= i < |calls| ==> Current(first, calls[..i]).session == Some(calls[i].token)
  }

  /** A call made with the token of the page held so far extends a token-following sequence. */
  lemma FollowsTokensSnoc(first: Page, made: seq<Call>, c: Call)
    requires FollowsTokens(first, made)
    requires Current(first, made).session == Some(c.token)
    ensures FollowsTokens(first, made + [c])
    ensures Current(first, made + [c]) == Next(Current(first, made), c)
  {
    var calls := made + [c];
    assert calls[..|made|] == made;
    forall i | 0 <= i < |calls|
      ensures Current(first, calls[..i]).session == Some(calls[i].token)
    {
      if i < |made| {
        assert calls[..i] == made[..i];
      }
    }
  }

  /**
   * In a token-following sequence, the call after a successful one passes the
   * token of the page it returned, and the call after a failed one retries
   * the same token.
   */
  lemma NextToken(first: Page, calls: seq<Call>, i: nat)
    requires FollowsTokens(first, calls)
    requires i + 1 < |calls|
    ensures Some(calls[i + 1].token)
         == if calls[i].reply.Some? then calls[i].reply.value.session else Some(calls[i].token)
  {
    assert calls[..i + 1][..i] == calls[..i];
  }

  /** A record was gathered exactly when some call delivered it. */
  lemma {:induction false} GatheredMembers(calls: seq<Call>, r: Record)
    ensures r in Gathered(calls) <==> exists i :: 0 <= i < |calls| && r in Delivered(calls[i])
    decreases |calls|
  {
    if calls != [] {
      var init := calls[..|calls| - 1];
      GatheredMembers(init, r);
      if r in Gathered(init) {
        var i :| 0 <= i < |init| && r in Delivered(init[i]);
        assert calls[i] == init[i];
      }
      if exists i :: 0 <= i < |calls| && r in Delivered(calls[i]) {
        var i :| 0 <= i < |calls| && r in Delivered(calls[i]);
        if i < |init| {
          assert init[i] == calls[i];
        }
      }
    }
  }

  /** Client-side `startsWith` filter: the records whose pid begins with the prefix, in order. */
  function Filter(rs: seq<Record>, prefix: string): (r: seq<Record>)
    ensures |r| <= |rs|
    ensures forall i :: 0 <= i < |r| ==> prefix <= r[i].pid
    decreases |rs|
  {
    if rs == [] then []
    else Filter(rs[..|rs| - 1], prefix) + (if prefix <= rs[|rs| - 1].pid then [rs[|rs| - 1]] else [])
  }

  /** One more record is kept, at the end, exactly when its pid starts with the prefix. */
  lemma FilterSnoc(rs: seq<Record>, r: Record, prefix: string)
    ensures Filter(rs + [r], prefix) == Filter(rs, prefix) + (if prefix <= r.pid then [r] else [])
  {
    assert (rs + [r])[..|rs|] == rs;
  }

  /** Filtering a concatenation filters each part and keeps them in order. */
  lemma {:induction false} FilterAppend(a: seq<Record>, b: seq<Record>, prefix: string)
    ensures Filter(a + b, prefix) == Filter(a, prefix) + Filter(b, prefix)
    decreases |b|
  {
    if b == [] {
      assert a + b == a;
    } else {
      var b' := b[..|b| - 1];
      assert (a + b)[..|a + b| - 1] == a + b';
      FilterAppend(a, b', prefix);
    }
  }

  /** A record is kept exactly when it is in the input and its pid starts with the prefix. */
  lemma {:induction false} FilterMembers(rs: seq<Record>, prefix: string, r: Record)
    ensures r in Filter(rs, prefix) <==> r in rs && prefix <= r.pid
    decreases |rs|
  {
    if rs != [] {
      var rs' := rs[..|rs| - 1];
      assert rs == rs' + [rs[|rs| - 1]];
      FilterMembers(rs', prefix, r);
    }
  }

  /** Records that all match are all kept, and in their own order. */
  lemma {:induction false} FilterKeepsMatching(rs: seq<Record>, prefix: string)
    requires forall i :: 0 <= i < |rs| ==> prefix <= rs[i].pid
    ensures Filter(rs, prefix) == rs
    decreases |rs|
  {
    if rs != [] {
      var rs' := rs[..|rs| - 1];
      assert rs == rs' + [rs[|rs| - 1]];
      FilterKeepsMatching(rs', prefix);
    }
  }

  /** The list of CorpusObjects carries exactly these (pid, title) pairs, in order. */
  ghost predicate Holds(objs: seq<CorpusObject>, rs: seq<Record>)
    reads set o | o in objs
  {
    && |objs| == |rs|
    && forall i :: 0 <= i < |objs| ==>
         objs[i].GetFedoraPid() == Some(rs[i].pid) && objs[i].GetTitle() == Some(rs[i].title)
  }

  /** Appending an object that carries a record's pair keeps the list in step with the records. */
  lemma HoldsSnoc(objs: seq<CorpusObject>, rs: seq<Record>, w: CorpusObject, r: Record)
    requires Holds(objs, rs)
    requires w.GetFedoraPid() == Some(r.pid) && w.GetTitle() == Some(r.title)
    ensures Holds(objs + [w], rs + [r])
  {
  }

  /** `new CorpusObject(ofield.getPid())` followed by `setTitle(ofield.getTitle(0))`. */
  method FromFields(r: Record) returns (w: CorpusObject)
    ensures w.GetFedoraPid() == Some(r.pid) && w.GetTitle() == Some(r.title)
  {
    w := new CorpusObject.WithPid(r.pid);
    w.SetTitle(Some(r.title));
  }

  /** The per-page `for` loop of GetCollectionObjects: append an object for every record. */
  method AppendAll(alist: seq<CorpusObject>, ghost base: seq<Record>, rs: seq<Record>)
    returns (out: seq<CorpusObject>)
    requires Holds(alist, base)
    ensures Holds(out, base + rs)
    ensures |alist| <= |out| && out[..|alist|] == alist
  {
    out := alist;
    assert base + rs[..0] == base;
    for i := 0 to |rs|
      invariant Holds(out, base + rs[..i])
      invariant |alist| <= |out| && out[..|alist|] == alist
    {
      var w := FromFields(rs[i]);
      assert base + rs[..i + 1] == base + rs[..i] + [rs[i]];
      HoldsSnoc(out, base + rs[..i], w, rs[i]);
      assert (out + [w])[..|alist|] == out[..|alist|];
      out := out + [w];
    }
    assert rs[..|rs|] == rs;
  }

  /** The per-page `for` loop of GetWorkObjects: append an object for every record whose pid starts with the prefix. */
  method AppendMatching(alist: seq<CorpusObject>, ghost base: seq<Record>, rs: seq<Record>, prefix: string)
    returns (out: seq<CorpusObject>)
    requires Holds(alist, Filter(base, prefix))
    ensures Holds(out, Filter(base + rs, prefix))
    ensures |alist| <= |out| && out[..|alist|] == alist
  {
    out := alist;
    assert base + rs[..0] == base;
    for i := 0 to |rs|
      invariant Holds(out, Filter(base + rs[..i], prefix))
      invariant |alist| <= |out| && out[..|alist|] == alist
    {
      var w := FromFields(rs[i]);
      ghost var seen := base + rs[..i];
      FilterSnoc(seen, rs[i], prefix);
      assert base + rs[..i + 1] == seen + [rs[i]];
      var pid := w.GetFedoraPid().value;
      if prefix <= pid {
        HoldsSnoc(out, Filter(seen, prefix), w, rs[i]);
        assert (out + [w])[..|alist|] == out[..|alist|];
        out := out + [w];
      }
    }
    assert rs[..|rs|] == rs;
  }
}
