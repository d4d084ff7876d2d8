/** The named `middleware` of `middleware.ts`: a request whose URL contains
    a protected path and that carries no session token is sent to the
    login page. */
module Middleware {
  import opened Common

  /** `s.includes(p)`. */
  predicate Includes(s: string, p: string)
    decreases |s|
  {
    p <= s || (s != [] && Includes(s[1..], p))
  }

  /** `includes` holds exactly when `p` occurs at some position. */
  lemma {:induction false} IncludesAt(s: string, p: string, i: nat)
    requires i + |p| <= |s| && s[i..i + |p|] == p
    ensures Includes(s, p)
    decreases i
  {
    if i > 0 {
      assert s[1..][i - 1..i - 1 + |p|] == s[i..i + |p|];
      IncludesAt(s[1..], p, i - 1);
    }
  }

  lemma {:induction false} IncludesWitness(s: string, p: string) returns (i: nat)
    requires Includes(s, p)
    ensures i + |p| <= |s| && s[i..i + |p|] == p
    decreases |s|
  {
    if p <= s {
      i := 0;
    } else {
      var j := IncludesWitness(s[1..], p);
      assert s[1..][j..j + |p|] == s[j + 1..j + 1 + |p|];
      i := j + 1;
    }
  }

  const PROTECTED_PATHS: seq<string> := ["/"]

  /** `paths.some(path => url.includes(path))`. */
  function SomeIncluded(url: string, paths: seq<string>): (r: bool)
    ensures r <==> exists k :: 0 <= k < |paths| && Includes(url, paths[k])
  {
    if paths == [] then false
    else Includes(url, paths[0]) || SomeIncluded(url, paths[1..])
  }

  predicate IsProtected(url: string)
  {
    SomeIncluded(url, PROTECTED_PATHS)
  }

  /** With the single protected path "/", a URL is protected exactly when it
      contains a slash anywhere. */
  lemma ProtectedIffSlash(url: string)
    ensures IsProtected(url) <==> '/' in url
  {
    if '/' in url {
      var i :| 0 <= i < |url| && url[i] == '/';
      assert url[i..i + 1] == "/";
      IncludesAt(url, "/", i);
    }
    if IsProtected(url) {
      var i := IncludesWitness(url, "/");
      assert url[i] == url[i..i + 1][0];
    }
  }

  /** Every absolute URL, whatever its path, is protected. */
  lemma AbsoluteUrlProtected(url: string)
    requires Includes(url, "://")
    ensures IsProtected(url)
  {
    var i := IncludesWitness(url, "://");
    assert url[i + 1] == url[i..i + 3][1];
    ProtectedIffSlash(url);
  }

  /** Position of the first `c` in `s`, or `|s|` when there is none. */
  function IndexOf(s: string, c: char): (i: nat)
    ensures i <= |s| && c !in s[..i]
    ensures i < |s| ==> s[i] == c
  {
    if s == [] || s[0] == c then 0
    else
      var i := IndexOf(s[1..], c);
      assert s[1..][..i] == s[1..i + 1];
      i + 1
  }

  /** Length of the authority after "scheme://": up to the first '/', '?' or '#'. */
  function AuthorityLength(s: string): (n: nat)
    ensures n <= |s|
    ensures forall k :: 0 <= k < n ==> s[k] !in {'/', '?', '#'}
    ensures n < |s| ==> s[n] in {'/', '?', '#'}
  {
    if s == [] || s[0] in {'/', '?', '#'} then 0 else 1 + AuthorityLength(s[1..])
  }

  /** The origin `new URL(path, base)` keeps from an absolute base: scheme,
      "://" and authority. None when the base has no "://" and the
      constructor throws. */
  function Origin(url: string): (o: Option<string>)
    ensures o.Some? ==> o.value <= url && Includes(o.value, "://")
  {
    var i := IndexOf(url, ':');
    if i + 3 <= |url| && url[i..i + 3] == "://" then
      var n := AuthorityLength(url[i + 3..]);
      var o := url[..i + 3 + n];
      assert o[i..i + 3] == "://";
      IncludesAt(o, "://", i);
      Some(o)
    else None
  }

  datatype Outcome = Next | Redirect(location: string) | Throws

  /** `getToken` is the parameter `hasToken`. */
  function Handle(url: string, hasToken: bool): (r: Outcome)
    ensures hasToken ==> r == Next
    ensures !IsProtected(url) ==> r == Next
    ensures IsProtected(url) && !hasToken ==>
      r == (if Origin(url).Some? then Redirect(Origin(url).value + "/login") else Throws)
  {
    if IsProtected(url) && !hasToken then
      match Origin(url)
      case Some(o) => Redirect(o + "/login")
      case None => Throws
    else Next
  }

  /** The login page is itself protected: without a token, following the
      redirect is redirected to the same place again. */
  lemma LoginRedirectRepeats(url: string)
    requires Handle(url, false).Redirect?
    ensures Handle(Handle(url, false).location, false) == Handle(url, false)
  {
    var o := Origin(url).value;
    var loc := o + "/login";
    assert loc[|o|..|o| + 1] == "/";
    IncludesAt(loc, "/", |o|);
    OriginOfLogin(url, o);
  }

  /** The origin followed by a path has that same origin. */
  lemma OriginOfLogin(url: string, o: string)
    requires Origin(url) == Some(o)
    ensures Origin(o + "/login") == Some(o)
  {
    var i := IndexOf(url, ':');
    var n := AuthorityLength(url[i + 3..]);
    assert o == url[..i + 3 + n];
    var loc := o + "/login";
    assert o[i] == ':';
    IndexOfPrefix(o, "/login", ':', i);
    assert loc[i..i + 3] == o[i..i + 3] == url[i..i + 3];
    assert loc[i + 3..] == o[i + 3..] + "/login";
    AuthorityOfPrefix(o[i + 3..], "/login");
  }

  lemma {:induction false} IndexOfPrefix(a: string, b: string, c: char, i: nat)
    requires i < |a| && a[i] == c && c !in a[..i]
    ensures IndexOf(a + b, c) == i
    decreases i
  {
    if i > 0 {
      assert a[0] in a[..i];
      assert (a + b)[1..] == a[1..] + b;
      assert a[1..][..i - 1] == a[1..i];
      assert forall x :: x in a[1..i] ==> x in a[..i];
      IndexOfPrefix(a[1..], b, c, i - 1);
    }
  }

  lemma {:induction false} AuthorityOfPrefix(a: string, b: string)
    requires forall k :: 0 <= k < |a| ==> a[k] !in {'/', '?', '#'}
    requires b != [] && b[0] == '/'
    ensures AuthorityLength(a + b) == |a|
    decreases |a|
  {
    if a != [] {
      assert (a + b)[0] == a[0];
      assert (a + b)[1..] == a[1..] + b;
      AuthorityOfPrefix(a[1..], b);
    }
  }
}
