/**
 * GetCollectionsComponent.execute: parse the initial list capacity, turn the
 * super-collection PID into an `info:` URI, ask the resource index for every
 * subject related to it by the membership relation, and flatten the tuple
 * rows into a list of strings.
 */
module GetCollectionsComponent {
  import opened Wrappers
  import opened Meandre

  const IntMin: int := -0x8000_0000
  const IntMax: int := 0x7FFF_FFFF

  /** The capacity used when the property does not parse. */
  const DefaultCapacity: int := 100

  predicate IsDigit(c: char)
  {
    '0' <= c <= '9'
  }

  predicate AllDigits(s: string)
  {
    forall i :: 0 <= i < |s| ==> IsDigit(s[i])
  }

  /** The value of a string of decimal digits. */
  function DigitsValue(s: string): nat
    requires AllDigits(s)
    decreases |s|
  {
    if s == [] then 0 else DigitsValue(s[..|s| - 1]) * 10 + (s[|s| - 1] as int - '0' as int)
  }

  /**
   * `Integer.parseInt(s)`: an optional sign followed by at least one decimal
   * digit, with a value that fits in 32 bits; None where Java throws
   * NumberFormatException.
   */
  function ParseInt(s: string): (r: Option<int>)
    ensures r.Some? ==> IntMin <= r.value <= IntMax
  {
    var signed := |s| > 0 && (s[0] == '-' || s[0] == '+');
    var digits := if signed then s[1..] else s;
    if |digits| == 0 || !AllDigits(digits) then None
    else
      var v: int := if signed && s[0] == '-' then 0 - DigitsValue(digits) as int else DigitsValue(digits);
      if IntMin <= v <= IntMax then Some(v) else None
  }

  /** The `collectionArrayInitalSize` property as an int, 100 when it does not parse. */
  function InitialCapacity(property: string): (n: int)
    ensures IntMin <= n <= IntMax
  {
    match ParseInt(property)
    case Some(n) => n
    case None => DefaultCapacity
  }

  /** The decimal digits of a natural number, without leading zeros (`Integer.toString` for n >= 0). */
  function Decimal(n: nat): (s: string)
    decreases n
  {
    if n < 10 then [('0' as int + n) as char] else Decimal(n / 10) + [('0' as int + n % 10) as char]
  }

  /** `Integer.toString`. */
  function IntToString(i: int): string
  {
    if i < 0 then "-" + Decimal(-i) else Decimal(i)
  }

  lemma {:induction false} DecimalDigits(n: nat)
    ensures |Decimal(n)| > 0 && AllDigits(Decimal(n)) && DigitsValue(Decimal(n)) == n
    decreases n
  {
    if n >= 10 {
      DecimalDigits(n / 10);
      var s := Decimal(n);
      assert s[..|s| - 1] == Decimal(n / 10);
    }
  }

  /** Every int, written out by Java, is parsed back to itself. */
  lemma ParseIntRoundTrip(i: int)
    requires IntMin <= i <= IntMax
    ensures ParseInt(IntToString(i)) == Some(i)
  {
    var s := IntToString(i);
    if i < 0 {
      DecimalDigits(-i);
      assert s == "-" + Decimal(-i);
      assert s[0] == '-' && s[1..] == Decimal(-i);
      assert 0 - DigitsValue(s[1..]) as int == i;
    } else {
      DecimalDigits(i);
      assert s == Decimal(i);
      assert s[0] != '-' && s[0] != '+';
    }
  }

  /** A written-out int is used as the capacity as it is; anything ending in a non-digit gives 100. */
  lemma CapacityOfProperty(i: int, s: string)
    requires IntMin <= i <= IntMax
    ensures InitialCapacity(IntToString(i)) == i
    ensures s == [] || !IsDigit(s[|s| - 1]) ==> InitialCapacity(s) == DefaultCapacity
  {
    ParseIntRoundTrip(i);
    if s != [] && !IsDigit(s[|s| - 1]) {
      var signed := s[0] == '-' || s[0] == '+';
      var digits := if signed then s[1..] else s;
      if |digits| > 0 {
        assert digits[|digits| - 1] == s[|s| - 1];
        assert !AllDigits(digits);
      }
      assert ParseInt(s) == None;
    }
  }

  /** A super-collection already given as an `info:` URI is kept; any other PID goes through `PID.toURI`. */
  function SuperCollectionUri(uri: string, toUri: string -> string): (r: string)
    ensures "info:" <= uri ==> r == uri
    ensures !("info:" <= uri) ==> r == toUri(uri)
  {
    if "info:" <= uri then uri else toUri(uri)
  }

  /** When `PID.toURI` yields `info:` URIs, the result is one and normalising it again changes nothing. */
  lemma SuperCollectionUriIdempotent(uri: string, toUri: string -> string)
    requires forall p :: "info:" <= toUri(p)
    ensures "info:" <= SuperCollectionUri(uri, toUri)
    ensures SuperCollectionUri(SuperCollectionUri(uri, toUri), toUri) == SuperCollectionUri(uri, toUri)
  {
  }

  const QueryHead: string := "select $s from <#ri> where $s <"
  const QueryTail: string := ">;"

  /** The iTQL query asking for every subject related to a resource by the predicate (`isLiteral` is always false). */
  function ItqlQuery(relation: string, uri: string): (q: string)
    ensures QueryHead <= q && |q| == |QueryHead| + |relation| + 3 + |uri| + |QueryTail|
  {
    QueryHead + relation + "> <" + uri + QueryTail
  }

  /** The position of the first `c` in `s`, or |s| when there is none. */
  function IndexOf(s: string, c: char): (k: nat)
    ensures k <= |s|
    ensures k < |s| ==> s[k] == c
    ensures forall j :: 0 <= j < k ==> s[j] != c
    decreases |s|
  {
    if s == [] || s[0] == c then 0 else 1 + IndexOf(s[1..], c)
  }

  /** Reads the predicate and the object back out of an iTQL query. */
  function SplitQuery(q: string): Option<(string, string)>
  {
    if |q| < |QueryHead| + |QueryTail| || q[..|QueryHead|] != QueryHead || q[|q| - |QueryTail|..] != QueryTail then None
    else
      var body := q[|QueryHead|..|q| - |QueryTail|];
      var k := IndexOf(body, '>');
      if k + 3 <= |body| && body[k..k + 3] == "> <" then Some((body[..k], body[k + 3..])) else None
  }

  /** The query determines the predicate and the object, as long as the predicate holds no `>`. */
  lemma QueryRoundTrip(relation: string, uri: string)
    requires '>' !in relation
    ensures SplitQuery(ItqlQuery(relation, uri)) == Some((relation, uri))
  {
    var q := ItqlQuery(relation, uri);
    var body := relation + "> <" + uri;
    assert q == QueryHead + body + QueryTail;
    assert q[..|QueryHead|] == QueryHead;
    assert q[|q| - |QueryTail|..] == QueryTail;
    assert q[|QueryHead|..|q| - |QueryTail|] == body;
    var k := IndexOf(body, '>');
    assert body[|relation|] == '>';
    assert k == |relation|;
    assert body[k..k + 3] == "> <";
    assert body[..k] == relation;
    assert body[k + 3..] == uri;
  }

  /** The parameters handed to `getTuples`. */
  function Params(query: string): (params: map<string, string>)
    ensures params.Keys == {"lang", "flush", "query"}
    ensures params["lang"] == "itql" && params["flush"] == "true" && params["query"] == query
  {
    map["lang" := "itql", "flush" := "true", "query" := query]
  }

  /** Rows yielded before the iterator ends; `broken` when `hasNext`/`next` then throws TrippiException. */
  datatype TupleReply = Tuples(rows: seq<seq<string>>, broken: bool)

  /** `getTuples`: the tuple iterator, or None when it throws IOException or TrippiException. */
  type TupleSource = map<string, string> -> Option<TupleReply>

  /** Every value of every row, rows in iterator order: as many values as the rows hold together. */
  function Flatten(rows: seq<seq<string>>): (list: seq<string>)
    ensures |list| == Total(rows)
    decreases |rows|
  {
    if rows == [] then [] else Flatten(rows[..|rows| - 1]) + rows[|rows| - 1]
  }

  /** A value is listed exactly when some row holds it. */
  lemma {:induction false} FlattenMembers(rows: seq<seq<string>>, x: string)
    ensures x in Flatten(rows) <==> exists i :: 0 <= i < |rows| && x in rows[i]
    decreases |rows|
  {
    if rows != [] {
      var init := rows[..|rows| - 1];
      FlattenMembers(init, x);
      if x in Flatten(init) {
        var i :| 0 <= i < |init| && x in init[i];
        assert rows[i] == init[i];
      }
      if exists i :: 0 <= i < |rows| && x in rows[i] {
        var i :| 0 <= i < |rows| && x in rows[i];
        if i < |init| {
          assert init[i] == rows[i];
        }
      }
    }
  }

  /** How many values the rows hold together. */
  function Total(rows: seq<seq<string>>): nat
    decreases |rows|
  {
    if rows == [] then 0 else Total(rows[..|rows| - 1]) + |rows[|rows| - 1]|
  }

  /** The `while (tuples.hasNext())` loop: add every value of every row to the list, in order. */
  method CollectRows(rows: seq<seq<string>>) returns (alist: seq<string>)
    ensures alist == Flatten(rows)
  {
    alist := [];
    var i := 0;
    while i < |rows|
      invariant 0 <= i <= |rows|
      invariant alist == Flatten(rows[..i])
    {
      var row := rows[i];
      for j := 0 to |row|
        invariant alist == Flatten(rows[..i]) + row[..j]
      {
        alist := alist + [row[j]];
      }
      assert row[..|row|] == row;
      assert rows[..i + 1][..i] == rows[..i];
      i := i + 1;
    }
    assert rows[..i] == rows;
  }

  method Execute(relation: string, sizeProperty: string, superCollectionPid: string,
                 toUri: string -> string, getTuples: TupleSource)
    returns (pushes: seq<Push>, thrown: Option<Thrown>)
    ensures InitialCapacity(sizeProperty) < 0 ==> pushes == [] && thrown == Some(IllegalArgument)
    ensures InitialCapacity(sizeProperty) >= 0 ==>
      var uri := SuperCollectionUri(superCollectionPid, toUri);
      var reply := getTuples(Params(ItqlQuery(relation, uri)));
      if reply.None? || reply.value.broken then pushes == [] && thrown == Some(ComponentExecution(RemoteFault))
      else
        && thrown == None
        && pushes == [Push("collectionArrayList", Strings(Flatten(reply.value.rows))),
                      Push("superCollectionId", Text(uri))]
  {
    pushes := [];
    var capacity := InitialCapacity(sizeProperty);
    // `new ArrayList<String>(capacity)` rejects a negative capacity, outside the try block
    if capacity < 0 {
      return pushes, Some(IllegalArgument);
    }
    var uri := superCollectionPid;
    if !("info:" <= uri) {
      uri := toUri(uri);
    }
    var query := ItqlQuery(relation, uri);
    var params := map[];
    params := params["lang" := "itql"];
    params := params["flush" := "true"];
    params := params["query" := query];
    assert params == Params(query);
    var reply := getTuples(params);
    if reply.None? {
      return pushes, Some(ComponentExecution(RemoteFault));
    }
    var alist := CollectRows(reply.value.rows);
    if reply.value.broken {
      return pushes, Some(ComponentExecution(RemoteFault));
    }
    pushes := pushes + [Push("collectionArrayList", Strings(alist))];
    pushes := pushes + [Push("superCollectionId", Text(uri))];
    thrown := None;
  }
}
