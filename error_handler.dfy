/** The error-classifying middleware (middleware/error.js): it maps a thrown
    error to an HTTP status and a JSON body by a chain of ordered checks. */
module ErrorHandler {
  import opened Common

  /** The parts of a thrown error the middleware reads: its `name`, its
      numeric `code` when it has one, the messages of its per-field
      `errors` (in property order), the keys of its `keyValue` (in property
      order, absent when the error carries no `keyValue`), and its
      `message`. */
  datatype ErrorInfo = ErrorInfo(
    name: string,
    code: Option<int>,
    fieldMessages: seq<string>,
    keyValue: Option<seq<string>>,
    message: string)

  /** The response: a status, the body's `error`, and the body's `message`,
      which is omitted from the JSON when undefined. */
  datatype Response = Response(status: nat, error: string, message: Option<string>)

  const DuplicateKeyCode := 11000
  const Separator := ", "

  /** `Array.prototype.join(sep)`. */
  function Join(ms: seq<string>, sep: string): string
  {
    if |ms| == 0 then "" else if |ms| == 1 then ms[0] else ms[0] + sep + Join(ms[1..], sep)
  }

  /** `String(undefined)`, which a template literal prints for a missing
      first key. */
  const Undefined := "undefined"

  /** The handler, for the errors it can classify; `None` when it throws
      itself: `Object.keys` of a missing `keyValue` raises a TypeError.
      The checks run in order, so a validation error wins over a duplicate
      key, which wins over a token error; everything else is a 500 whose
      detail is shown only in development. Every response has status 400,
      401 or 500. */
  function Classify(err: ErrorInfo, development: bool): (r: Option<Response>)
    ensures
      && (r.None? <==> err.name != "ValidationError" && err.code == Some(11000) && err.keyValue.None?)
      && (r.Some? ==> r.value.status in {400, 401, 500})
      && (err.name == "ValidationError" ==> r == Some(Response(400, Join(err.fieldMessages, ", "), None)))
      && (err.name != "ValidationError" && err.code == Some(11000) && err.keyValue.Some? && |err.keyValue.value| > 0 ==>
            r == Some(Response(400, err.keyValue.value[0] + " already exists", None)))
      && (err.name == "JsonWebTokenError" && err.code != Some(11000) ==> r == Some(Response(401, "Invalid token", None)))
      && (r.Some? && r.value.status == 500 <==>
            err.name !in ["ValidationError", "JsonWebTokenError"] && err.code != Some(11000))
      && (r.Some? && r.value.status == 500 ==> r.value.error == "Server error")
      && (r.Some? ==> (r.value.message.Some? <==> r.value.status == 500 && development))
      && (r.Some? && r.value.message.Some? ==> r.value.message.value == err.message)
  {
    if err.name == "ValidationError" then Some(Response(400, Join(err.fieldMessages, Separator), None))
    else if err.code == Some(DuplicateKeyCode) then
      match err.keyValue
      case None => None
      case Some(keys) => Some(Response(400, (if |keys| == 0 then Undefined else keys[0]) + " already exists", None))
    else if err.name == "JsonWebTokenError" then Some(Response(401, "Invalid token", None))
    else Some(Response(500, "Server error", if development then Some(err.message) else None))
  }

  /** The 500 body carries nothing of the error but its message, and that
      only in development: two errors of the default kind are answered the
      same outside development. */
  lemma ProductionHidesDetail(a: ErrorInfo, b: ErrorInfo)
    requires a.name !in ["ValidationError", "JsonWebTokenError"] && a.code != Some(11000)
    requires b.name !in ["ValidationError", "JsonWebTokenError"] && b.code != Some(11000)
    ensures Classify(a, false) == Classify(b, false) == Some(Response(500, "Server error", None))
  {
  }

  // ----- the joined validation message can be split back -----

  /** No `", "` occurs inside the string. */
  predicate NoSeparator(m: string)
  {
    forall i :: 0 <= i < |m| - 1 ==> !(m[i] == ',' && m[i + 1] == ' ')
  }

  /** Splitting at every `", "`, left to right, with `cur` the piece read so
      far. */
  function SplitFrom(s: string, cur: string): (r: seq<string>)
    ensures |r| >= 1
    decreases |s|
  {
    if |s| == 0 then [cur]
    else if |s| >= 2 && s[0] == ',' && s[1] == ' ' then [cur] + SplitFrom(s[2..], "")
    else SplitFrom(s[1..], cur + [s[0]])
  }

  function Split(s: string): seq<string>
  {
    SplitFrom(s, "")
  }

  /** Reading through a piece without a separator just collects it, as long
      as what follows cannot complete a separator with its last character. */
  lemma {:induction false} SplitFromPiece(m: string, t: string, cur: string)
    requires NoSeparator(m)
    requires t == [] || t[0] == ','
    ensures SplitFrom(m + t, cur) == SplitFrom(t, cur + m)
    decreases |m|
  {
    if m != [] {
      var s := m + t;
      assert s[0] == m[0];
      assert !(|s| >= 2 && s[0] == ',' && s[1] == ' ') by {
        if |m| >= 2 {
          assert s[1] == m[1];
        } else if t != [] {
          assert s[1] == t[0];
        }
      }
      assert s[1..] == m[1..] + t;
      SplitFromPiece(m[1..], t, cur + [m[0]]);
      assert cur + [m[0]] + m[1..] == cur + m;
    } else {
      assert m + t == t;
      assert cur + m == cur;
    }
  }

  /** The 400 body of a validation error lists the field messages: when at
      least one message exists and none contains `", "`, splitting the body
      at `", "` gives back exactly the messages, in order. */
  lemma {:induction false} JoinSplitRoundTrip(ms: seq<string>)
    requires |ms| >= 1
    requires forall i :: 0 <= i < |ms| ==> NoSeparator(ms[i])
    ensures Split(Join(ms, Separator)) == ms
    decreases |ms|
  {
    if |ms| == 1 {
      SplitFromPiece(ms[0], [], "");
      assert ms[0] + [] == ms[0];
      assert ms == [ms[0]];
    } else {
      var rest := Join(ms[1..], Separator);
      assert Join(ms, Separator) == ms[0] + (Separator + rest);
      SplitFromPiece(ms[0], Separator + rest, "");
      assert "" + ms[0] == ms[0];
      assert (Separator + rest)[2..] == rest;
      JoinSplitRoundTrip(ms[1..]);
      assert ms == [ms[0]] + ms[1..];
    }
  }
}
