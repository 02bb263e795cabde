/** Shared vocabulary of the request handlers: identifiers, the clock, the
    handler outcome, the free-form JSON values that Mongoose stores in
    `Mixed` paths, JavaScript truthiness and the `trim` setter that string
    paths declared with `trim: true` apply on assignment. */
module Common {

  datatype Option<+T> = None | Some(value: T)

  /** Document identifiers. Handlers only compare them for equality
      (`a.toString() === b.toString()`), so they are opaque. */
  type UserId(==, !new)
  type NodeId(==, !new)
  type WorkspaceId(==, !new)

  /** A reading of the server clock (`new Date()` / `Date.now()`), supplied
      by the caller of every handler that stamps a record. */
  type Time = int

  /** An error response: HTTP status and the `error` text of its body. */
  datatype HttpError = HttpError(status: nat, message: string)

  /** What a handler answers: a success payload or an error response. */
  datatype Result<+T> = Ok(value: T) | Err(error: HttpError)

  /** The answer of every handler's catch block, reached here only when a
      Mongoose save is rejected by schema validation. */
  const ServerError := HttpError(500, "Server error")

  /** The 404 of every handler that looks up a workspace by id. */
  const WorkspaceNotFound := HttpError(404, "Workspace not found")

  /** A value of a Mongoose `Mixed` path (node content, ring data,
      integration settings), i.e. any JSON value. */
  datatype Json =
    | JNull
    | JBool(b: bool)
    | JNum(n: real)
    | JStr(s: string)
    | JArr(items: seq<Json>)
    | JObj(fields: map<string, Json>)

  /** JavaScript falsiness of a JSON value (`NaN` is not representable). */
  predicate FalsyJson(j: Json)
  {
    j == JNull || j == JBool(false) || j == JNum(0.0) || j == JStr("")
  }

  /** `s || d` for an optional request string: an absent or empty string
      is falsy and yields the default. */
  function StringOr(s: Option<string>, d: string): string
  {
    if s.Some? && s.value != "" then s.value else d
  }

  /** `j || d` for an optional request JSON value. */
  function JsonOr(j: Option<Json>, d: Json): Json
  {
    if j.Some? && !FalsyJson(j.value) then j.value else d
  }

  /** The characters `String.prototype.trim` removes: ECMAScript
      WhiteSpace (including the space separators of Unicode category Zs)
      and LineTerminator. */
  predicate IsWhitespace(c: char)
  {
    || c == '\t' || c == '\n' || c == '\U{000B}' || c == '\U{000C}' || c == '\r'
    || c == ' ' || c == '\U{00A0}' || c == '\U{1680}'
    || ('\U{2000}' <= c <= '\U{200A}')
    || c == '\U{2028}' || c == '\U{2029}' || c == '\U{202F}' || c == '\U{205F}'
    || c == '\U{3000}' || c == '\U{FEFF}'
  }

  /** The first position at or after `i` that does not hold whitespace
      (`|s|` when there is none). */
  function SkipLeading(s: string, i: nat): (k: nat)
    requires i <= |s|
    ensures i <= k <= |s|
    ensures forall j :: i <= j < k ==> IsWhitespace(s[j])
    ensures k == |s| || !IsWhitespace(s[k])
    decreases |s| - i
  {
    if i < |s| && IsWhitespace(s[i]) then SkipLeading(s, i + 1) else i
  }

  /** The end of `s[lo..j]` once its trailing whitespace is dropped. */
  function SkipTrailing(s: string, lo: nat, j: nat): (e: nat)
    requires lo <= j <= |s|
    ensures lo <= e <= j
    ensures forall m :: e <= m < j ==> IsWhitespace(s[m])
    ensures e == lo || !IsWhitespace(s[e - 1])
    decreases j
  {
    if lo < j && IsWhitespace(s[j - 1]) then SkipTrailing(s, lo, j - 1) else j
  }

  /** `String.prototype.trim`, which Mongoose applies to `trim: true` paths:
      the input without its leading and trailing whitespace. */
  function Trim(s: string): string
  {
    var k := SkipLeading(s, 0);
    s[k..SkipTrailing(s, k, |s|)]
  }

  /** A trimmed string is the piece of the input between its leading and
      its trailing whitespace, and it neither starts nor ends with
      whitespace. */
  lemma TrimIsInfix(s: string)
    ensures exists k, e ::
              && 0 <= k <= e <= |s| && Trim(s) == s[k..e]
              && (forall i :: 0 <= i < k ==> IsWhitespace(s[i]))
              && (forall i :: e <= i < |s| ==> IsWhitespace(s[i]))
    ensures Trim(s) == [] || (!IsWhitespace(Trim(s)[0]) && !IsWhitespace(Trim(s)[|Trim(s)| - 1]))
  {
    var k := SkipLeading(s, 0);
    var e := SkipTrailing(s, k, |s|);
    assert Trim(s) == s[k..e];
    if k < e {
      assert Trim(s)[0] == s[k];
      assert Trim(s)[|Trim(s)| - 1] == s[e - 1];
    }
  }

  /** Trimming twice is trimming once: a stored trimmed value is unchanged
      when it is assigned again. */
  lemma TrimIdempotent(s: string)
    ensures Trim(Trim(s)) == Trim(s)
  {
    var t := Trim(s);
    TrimIsInfix(s);
    assert SkipLeading(t, 0) == 0;
    assert SkipTrailing(t, 0, |t|) == |t|;
    assert t[0..|t|] == t;
  }

  /** A `required` string path rejects exactly the values that trim to
      nothing: the trimmed value is empty iff every character is whitespace. */
  lemma {:induction false} TrimEmptyIff(s: string)
    ensures Trim(s) == "" <==> forall i :: 0 <= i < |s| ==> IsWhitespace(s[i])
  {
    var k := SkipLeading(s, 0);
    var e := SkipTrailing(s, k, |s|);
    if forall i :: 0 <= i < |s| ==> IsWhitespace(s[i]) {
      assert k == |s|;
    } else {
      var i :| 0 <= i < |s| && !IsWhitespace(s[i]);
      assert k <= i < e;
      assert |Trim(s)| == e - k > 0;
    }
  }

  /** What a `trim: true` string path stores when assigned: the trimmed
      value; an absent value stores nothing, which `required` rejects like
      the empty string. */
  function AssignTrimmed(v: Option<string>): string
  {
    if v.Some? then Trim(v.value) else ""
  }

  /** `Array.prototype.findIndex` (and `find` / `some`, which use the same
      search): the first position whose element satisfies `p`, if any. */
  function FirstIndex<T>(s: seq<T>, p: T -> bool): (r: Option<nat>)
    ensures r.Some? ==> r.value < |s| && p(s[r.value])
    ensures r.Some? ==> forall j :: 0 <= j < r.value ==> !p(s[j])
    ensures r.None? ==> forall j :: 0 <= j < |s| ==> !p(s[j])
  {
    if s == [] then None
    else if p(s[0]) then Some(0)
    else match FirstIndex(s[1..], p)
      case None => None
      case Some(k) => Some(k + 1)
  }

  /** The first matching position is determined by where the elements that
      satisfy `p` are, so it is unchanged by any edit that keeps those. */
  lemma FirstIndexDetermined<T>(s: seq<T>, t: seq<T>, p: T -> bool)
    requires |s| == |t|
    requires forall j :: 0 <= j < |s| ==> p(s[j]) == p(t[j])
    ensures FirstIndex(s, p) == FirstIndex(t, p)
  {
  }

  /** Searching after an append: earlier matches win, otherwise the new
      element is found if it matches. */
  lemma FirstIndexAppend<T>(s: seq<T>, x: T, p: T -> bool)
    ensures FirstIndex(s + [x], p) ==
      if FirstIndex(s, p).Some? then FirstIndex(s, p)
      else if p(x) then Some(|s|) else None
  {
    assert forall j :: 0 <= j < |s| ==> (s + [x])[j] == s[j];
    assert (s + [x])[|s|] == x;
  }

  /** `Array.prototype.filter`, and the `$pull` update operator: the
      elements that satisfy `p`, in their original order. */
  function Filter<T(!new)>(s: seq<T>, p: T -> bool): (r: seq<T>)
    ensures |r| <= |s|
    ensures forall x :: x in r <==> x in s && p(x)
  {
    if s == [] then [] else (if p(s[0]) then [s[0]] else []) + Filter(s[1..], p)
  }

  /** Filtering keeps the order of what it keeps: it distributes over
      concatenation. */
  lemma {:induction false} FilterConcat<T(!new)>(a: seq<T>, b: seq<T>, p: T -> bool)
    ensures Filter(a + b, p) == Filter(a, p) + Filter(b, p)
  {
    if a != [] {
      assert (a + b)[1..] == a[1..] + b;
      FilterConcat(a[1..], b, p);
    } else {
      assert a + b == b;
    }
  }

  /** Filtering with a predicate every element satisfies changes nothing. */
  lemma {:induction false} FilterKeepsAll<T(!new)>(s: seq<T>, p: T -> bool)
    requires forall j :: 0 <= j < |s| ==> p(s[j])
    ensures Filter(s, p) == s
  {
    if s != [] {
      FilterKeepsAll(s[1..], p);
    }
  }

  /** The test `y !== x` as a predicate value, for `$pull` of one value. */
  function Other<T(==)>(x: T): T -> bool
  {
    (y: T) => y != x
  }
}
