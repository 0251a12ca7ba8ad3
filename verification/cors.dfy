/** The CORS origin decision (index.js lines 19-27): the allowed origins
    come from a comma-separated setting, and a request origin is accepted
    when it is absent, when the list holds "*", or when it is listed exactly. */
module Cors {
  import opened Strings
  import opened Js

  /** Line 20: the setting split on commas, entries kept as they are (no
      trimming, empty entries kept); unset or empty means `["*"]`. */
  function AllowedOrigins(env: Option<string>): (r: seq<string>)
    ensures |r| >= 1
    ensures forall o :: o in r ==> ',' !in o
    ensures env.None? || env.value == "" ==> r == ["*"]
    ensures env.Some? && env.value != "" ==> Join(r, ",") == env.value
  {
    if env.Some? && env.value != "" then
      JoinSplit(env.value, ',');
      Split(env.value, ',')
    else ["*"]
  }

  /** Lines 22-26: `true` when the callback allows the origin, `false` when
      it reports "CORS not allowed". `None` is a request without an `Origin`
      header; an empty header is falsy and allowed too. */
  function OriginAllowed(origin: Option<string>, allowed: seq<string>): (ok: bool)
    ensures origin.None? || origin.value == "" ==> ok
    ensures "*" in allowed ==> ok
    ensures origin.Some? && origin.value != "" && "*" !in allowed ==> (ok <==> origin.value in allowed)
  {
    if origin.None? || origin.value == "" then true
    else "*" in allowed || origin.value in allowed
  }

  /** Without the setting every origin is allowed. */
  lemma UnsetAllowsAll(env: Option<string>, origin: Option<string>)
    requires env.None? || env.value == ""
    ensures OriginAllowed(origin, AllowedOrigins(env))
  {
  }

  /** A non-empty setting written as the comma-join of comma-free origins
      (empty entries, such as the one after a trailing comma, included)
      allows a present origin exactly when it is one of them or one of them
      is "*". */
  lemma {:induction false} ListedOrigins(origins: seq<string>, o: string)
    requires Join(origins, ",") != ""
    requires forall x :: x in origins ==> ',' !in x
    requires o != ""
    ensures AllowedOrigins(Some(Join(origins, ","))) == origins
    ensures OriginAllowed(Some(o), AllowedOrigins(Some(Join(origins, ",")))) <==> "*" in origins || o in origins
  {
    SplitJoin(origins, ',');
  }

  /** Entries are compared verbatim, not trimmed: with the setting
      "a, b" (a space after the comma) the origin `b` is rejected, because
      the list holds " b". */
  lemma SpacesAreKept(a: string, b: string)
    requires a != "" && a != "*" && a != b && ',' !in a
    requires b != "" && ',' !in b
    ensures !OriginAllowed(Some(b), AllowedOrigins(Some(a + ", " + b)))
  {
    var entries := [a, " " + b];
    assert forall x :: x in entries ==> ',' !in x;
    SplitJoin(entries, ',');
    assert Join(entries, ",") == a + ", " + b;
    assert |" " + b| > |b| && |" " + b| > 1;
  }
}
