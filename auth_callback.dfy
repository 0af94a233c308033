/** The magic-link callback route: exchange the code for a session and
    send the user on, or back to the sign-in page with an error. */
module AuthCallback {

  import opened Wrappers
  import opened Schema

  const InvalidLinkDescription := "Le lien de connexion est invalide ou a expiré. Veuillez réessayer."

  /** A redirect target: a plain URL string, or a page of `origin` with
      query parameters set on it (their encoding is left to the URL class). */
  datatype Target =
    | Href(url: string)
    | Page(origin: string, path: string, params: seq<(string, string)>)

  /** The result of `GET`: where it redirects, and the code it exchanged, if any. */
  datatype Outcome = Outcome(target: Target, exchanged: Option<string>)

  function ErrorTarget(origin: string): Target {
    Page(origin, "/pharmacist-auth", [("error", "invalid_link"), ("error_description", InvalidLinkDescription)])
  }

  /** `next ?? '/'`. */
  function NextOrRoot(next: Option<string>): (r: string)
    ensures next.None? ==> r == "/"
    ensures next.Some? ==> r == next.value
  {
    next.GetOr("/")
  }

  /** `GET(request)`; `exchange(code)` is the session exchange's error, if any. */
  function Callback(origin: string, code: Option<string>, next: Option<string>,
                    exchange: string -> Option<string>): (r: Outcome)
    ensures r.exchanged.Some? <==> Truthy(code)
    ensures r.exchanged.Some? ==> r.exchanged == code
    ensures Truthy(code) && exchange(code.value).None? ==> r.target == Href(origin + NextOrRoot(next))
    ensures !(Truthy(code) && exchange(code.value).None?) ==> r.target == ErrorTarget(origin)
  {
    if Truthy(code) then
      if exchange(code.value).None? then Outcome(Href(origin + NextOrRoot(next)), code)
      else Outcome(ErrorTarget(origin), code)
    else Outcome(ErrorTarget(origin), None)
  }

  // -----------------------------------------------------------------------
  // where the success redirect lands

  /** The characters that end a URL's authority (host and port, with any
      user-info) in the WHATWG URL Standard's parsing of special schemes. */
  predicate EndsAuthority(c: char) {
    c == '/' || c == '\\' || c == '?' || c == '#'
  }

  const Scheme := "https://"

  /** The authority of `url` from position `i`: everything up to the next
      delimiter. */
  function AuthorityFrom(url: string, i: nat): (r: string)
    ensures forall c :: c in r ==> !EndsAuthority(c)
    decreases |url| - i
  {
    if i >= |url| || EndsAuthority(url[i]) then [] else [url[i]] + AuthorityFrom(url, i + 1)
  }

  /** The authority of an `https` URL. */
  function Authority(url: string): string {
    AuthorityFrom(url, |Scheme|)
  }

  /** Where the host starts in `auth[..j]`: just after its last '@', or at 0. */
  function AfterLastAt(auth: string, j: nat): (r: nat)
    requires j <= |auth|
    ensures r <= j
    ensures forall k :: r <= k < j ==> auth[k] != '@'
    ensures r > 0 ==> auth[r - 1] == '@'
  {
    if j == 0 then 0 else if auth[j - 1] == '@' then j else AfterLastAt(auth, j - 1)
  }

  /** The host (with any port) of an authority: what follows its last '@',
      since everything up to that '@' is user-info. */
  function Host(auth: string): (h: string)
    ensures '@' !in h
    ensures |h| <= |auth| && h == auth[|auth| - |h|..]
    ensures |h| < |auth| ==> auth[|auth| - |h| - 1] == '@'
  {
    auth[AfterLastAt(auth, |auth|)..]
  }

  /** An authority without user-info is all host. */
  lemma HostWithoutUserInfo(auth: string)
    requires '@' !in auth
    ensures Host(auth) == auth
  {
  }

  /** Whatever precedes the last '@' is user-info, not host. */
  lemma {:induction false} HostAfterUserInfo(userInfo: string, host: string)
    requires '@' !in host
    ensures Host(userInfo + "@" + host) == host
    decreases |host|
  {
    var a := userInfo + "@" + host;
    if host == [] {
      assert a[|a| - 1] == '@';
    } else {
      var last := host[|host| - 1];
      assert last in host;
      assert a[|a| - 1] == last;
      assert a[..|a| - 1] == userInfo + "@" + host[..|host| - 1];
      assert forall c :: c in host[..|host| - 1] ==> c in host;
      HostAfterUserInfo(userInfo, host[..|host| - 1]);
      assert host == host[..|host| - 1] + [last];
    }
  }

  /** An origin: the scheme followed by a host without delimiters. */
  function Origin(host: string): string {
    Scheme + host
  }

  /** The authority of `p + rest` read from inside `p` runs through the rest
      of `p` and on into `rest` when `p` has no delimiter there. */
  lemma {:induction false} AuthorityAcross(p: string, rest: string, i: nat)
    requires i <= |p|
    requires forall k :: i <= k < |p| ==> !EndsAuthority(p[k])
    ensures AuthorityFrom(p + rest, i) == p[i..] + AuthorityFrom(rest, 0)
    decreases |p| - i
  {
    if i == |p| {
      AuthorityShift(p, rest, 0);
    } else {
      AuthorityAcross(p, rest, i + 1);
      assert p[i..] == [p[i]] + p[i + 1..];
    }
  }

  /** Reading `rest` inside `p + rest` is reading `rest` alone. */
  lemma {:induction false} AuthorityShift(p: string, rest: string, j: nat)
    requires j <= |rest|
    ensures AuthorityFrom(p + rest, |p| + j) == AuthorityFrom(rest, j)
    decreases |rest| - j
  {
    if j < |rest| {
      AuthorityShift(p, rest, j + 1);
    }
  }

  /** The authority of the redirect the leaking link produces. */
  lemma LeakedAuthority()
    ensures Authority(Scheme + "pharma.example@evil.example") == "pharma.example@evil.example"
  {
    var p := Scheme + "pharma.example@evil.example";
    assert p == p + "";
    AuthorityAcross(p, "", |Scheme|);
    assert p[|Scheme|..] == "pharma.example@evil.example";
  }

  /** The host of that authority. */
  lemma LeakedHost()
    ensures Host("pharma.example@evil.example") == "evil.example"
  {
    assert "pharma.example@evil.example" == "pharma.example" + "@" + "evil.example";
    HostAfterUserInfo("pharma.example", "evil.example");
  }

  /** As written, `next` is appended to the origin unchecked, so a link whose
      `next` does not start with '/' moves the authority: with
      `next=@evil.example` the redirect's authority is
      `pharma.example@evil.example`, whose host is `evil.example`. */
  lemma CallbackRedirectLeavesOrigin()
    ensures var t := Callback(Origin("pharma.example"), Some("c"), Some("@evil.example"), _ => None).target;
            && t.Href? && Authority(t.url) == "pharma.example@evil.example"
            && Host(Authority(t.url)) == "evil.example"
  {
    var t := Callback(Origin("pharma.example"), Some("c"), Some("@evil.example"), _ => None).target;
    assert t.url == Scheme + "pharma.example@evil.example";
    LeakedAuthority();
    LeakedHost();
  }

  /** `next` when it is a path on the origin, and the root otherwise. */
  function SafeNext(next: Option<string>): (r: string)
    ensures |r| > 0 && r[0] == '/'
    ensures next.None? ==> r == "/"
  {
    if next.Some? && |next.value| > 0 && next.value[0] == '/' then next.value else "/"
  }

  /** `GET` with `next` restricted to paths. */
  function CallbackSafe(origin: string, code: Option<string>, next: Option<string>,
                        exchange: string -> Option<string>): (r: Outcome)
    ensures r.exchanged.Some? <==> Truthy(code)
    ensures Truthy(code) && exchange(code.value).None? ==> r.target == Href(origin + SafeNext(next))
    ensures !(Truthy(code) && exchange(code.value).None?) ==> r.target == ErrorTarget(origin)
  {
    if Truthy(code) then
      if exchange(code.value).None? then Outcome(Href(origin + SafeNext(next)), code)
      else Outcome(ErrorTarget(origin), code)
    else Outcome(ErrorTarget(origin), None)
  }

  /** With `next` restricted to paths, every redirect stays on the origin's
      host or is the sign-in error page on that origin. */
  lemma CallbackSafeStaysOnHost(host: string, code: Option<string>, next: Option<string>,
                                exchange: string -> Option<string>)
    requires forall k :: 0 <= k < |host| ==> !EndsAuthority(host[k])
    requires '@' !in host
    ensures var t := CallbackSafe(Origin(host), code, next, exchange).target;
            || (t.Href? && Authority(t.url) == host && Host(Authority(t.url)) == host)
            || t == ErrorTarget(Origin(host))
  {
    var t := CallbackSafe(Origin(host), code, next, exchange).target;
    if t.Href? {
      var n := SafeNext(next);
      assert t.url == (Scheme + host) + n;
      AuthorityAcross(Scheme + host, n, |Scheme|);
      assert (Scheme + host)[|Scheme|..] == host;
      HostWithoutUserInfo(host);
    }
  }

  /** Both agree on every `next` that is a path, so the corrected route
      behaves as written for every link the application sends. */
  lemma CallbackSafeAgreesOnPaths(origin: string, code: Option<string>, next: string,
                                  exchange: string -> Option<string>)
    requires |next| > 0 && next[0] == '/'
    ensures CallbackSafe(origin, code, Some(next), exchange) == Callback(origin, code, Some(next), exchange)
  {
  }
}
