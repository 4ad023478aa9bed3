/** The cookie debugging endpoint: it reports which cookies the request carries and
    whether the authentication cookie is set, without ever echoing a cookie's value.
    The request's cookies are a parameter. */
module DebugRoute {
  import opened Wrappers

  datatype Cookie = Cookie(name: string, value: string)

  /** A cookie as the report shows it: its name and a placeholder for its value. */
  datatype Shown = Shown(name: string, value: string)

  datatype Report = Report(authTokenExists: bool, cookieDetails: Option<Shown>, allCookies: seq<Shown>,
                           sessionCookies: seq<string>)

  const AuthCookie := "auth_token"
  const Exists := "EXISTS (hidden for security)"
  const Empty := "EMPTY"
  const Hidden := "HIDDEN"

  /** `cookieStore.get(name)`: the first cookie with that name. */
  function Find(cookies: seq<Cookie>, name: string): (r: Option<Cookie>)
    ensures r.Some? <==> exists i :: 0 <= i < |cookies| && cookies[i].name == name
    ensures r.Some? ==> r.value in cookies && r.value.name == name
  {
    if cookies == [] then None
    else if cookies[0].name == name then Some(cookies[0])
    else
      var r := Find(cookies[1..], name);
      assert forall i :: 1 <= i < |cookies| ==> cookies[i] == cookies[1..][i - 1];
      r
  }

  /** One entry of `allCookies`: the auth cookie says whether it has a value, every
      other cookie is hidden. */
  function Mask(c: Cookie): Shown {
    Shown(c.name, if c.name == AuthCookie then (if c.value != "" then Exists else Empty) else Hidden)
  }

  function MaskAll(cookies: seq<Cookie>): (r: seq<Shown>)
    ensures |r| == |cookies| && forall i :: 0 <= i < |cookies| ==> r[i] == Mask(cookies[i])
  {
    if cookies == [] then [] else [Mask(cookies[0])] + MaskAll(cookies[1..])
  }

  function Names(cookies: seq<Cookie>): (r: seq<string>)
    ensures |r| == |cookies| && forall i :: 0 <= i < |cookies| ==> r[i] == cookies[i].name
  {
    if cookies == [] then [] else [cookies[0].name] + Names(cookies[1..])
  }

  /** `GET`. */
  function DebugReport(cookies: seq<Cookie>): (r: Report)
    ensures r.authTokenExists <==> exists i :: 0 <= i < |cookies| && cookies[i].name == AuthCookie
    ensures r.cookieDetails.None? <==> !r.authTokenExists
    ensures r.cookieDetails.Some? ==> r.cookieDetails.value == Shown(AuthCookie, Hidden)
    ensures |r.allCookies| == |cookies| == |r.sessionCookies|
    ensures forall i :: 0 <= i < |cookies| ==>
      r.allCookies[i].name == cookies[i].name && r.sessionCookies[i] == cookies[i].name
    ensures forall i :: 0 <= i < |cookies| ==>
      r.allCookies[i].value == (if cookies[i].name != AuthCookie then Hidden
                                else if cookies[i].value == "" then Empty else Exists)
  {
    var authToken := Find(cookies, AuthCookie);
    Report(authToken.Some?,
           if authToken.Some? then Some(Shown(authToken.value.name, Hidden)) else None,
           MaskAll(cookies),
           Names(cookies))
  }

  /** What the report may depend on: the names, and whether each auth cookie is empty. */
  predicate SameShape(a: seq<Cookie>, b: seq<Cookie>) {
    |a| == |b| && forall i :: 0 <= i < |a| ==>
      a[i].name == b[i].name && (a[i].name == AuthCookie ==> (a[i].value == "") == (b[i].value == ""))
  }

  /** No value leaks: two requests whose cookies differ only in their values (beyond
      whether the auth cookie is empty) get the very same report. */
  lemma {:induction false} ReportHidesValues(a: seq<Cookie>, b: seq<Cookie>)
    requires SameShape(a, b)
    ensures DebugReport(a) == DebugReport(b)
  {
    var ra, rb := DebugReport(a), DebugReport(b);
    assert ra.allCookies == rb.allCookies;
    assert ra.sessionCookies == rb.sessionCookies;
    assert ra.authTokenExists == rb.authTokenExists by {
      if ra.authTokenExists {
        var i :| 0 <= i < |a| && a[i].name == AuthCookie;
        assert b[i].name == AuthCookie;
      }
      if rb.authTokenExists {
        var i :| 0 <= i < |b| && b[i].name == AuthCookie;
        assert a[i].name == AuthCookie;
      }
    }
  }

  /** Every value the report shows is one of the three placeholders. */
  lemma {:induction false} OnlyPlaceholders(cookies: seq<Cookie>)
    ensures var r := DebugReport(cookies);
      (forall s :: s in r.allCookies ==> s.value in {Exists, Empty, Hidden}) &&
      (r.cookieDetails.Some? ==> r.cookieDetails.value.value == Hidden)
  {
    var r := DebugReport(cookies);
    forall s | s in r.allCookies
      ensures s.value in {Exists, Empty, Hidden}
    {
      var i :| 0 <= i < |r.allCookies| && r.allCookies[i] == s;
      assert s == Mask(cookies[i]);
    }
  }
}
