/**
 * The helpers of internal/util/util.go: the userinfo rewrite that turns a redis-cli
 * style URI ("redis://password@host") into the form go-redis parses
 * ("redis://:password@host"), and PanicOnError.
 */
module Util {
  import opened Wrappers

  /** url.Userinfo: a username and, when one was given, a password. */
  datatype Userinfo = Userinfo(username: string, password: Option<string>)

  /** The parts of a parsed url.URL the rewrite can see; everything else is carried unchanged. */
  datatype URL = URL(scheme: string, user: Option<Userinfo>, host: string, path: string, rawQuery: string)

  /** The userinfo as url.URL.String writes it before the "@" (escaping is not modelled). */
  function UserinfoText(u: Userinfo): string
  {
    u.username + (match u.password case Some(p) => ":" + p case None => "")
  }

  /** The rewrite: a non-empty username is the password, so it moves after the colon. */
  function NormalizeUser(u: URL): (r: URL)
    // only the userinfo is ever rewritten
    ensures r.(user := u.user) == u
    // no userinfo, or an already empty username (":password@"), is left as it is
    ensures u.user.None? || u.user.value.username == "" ==> r == u
    // "user@" and "user:pass@" both become ":user@": any password given is dropped
    ensures u.user.Some? && u.user.value.username != "" ==>
      r.user == Some(Userinfo("", Some(u.user.value.username)))
  {
    if u.user.Some? && u.user.value.username != "" then
      u.(user := Some(Userinfo("", Some(u.user.value.username))))
    else u
  }

  /** After the rewrite the username is empty, so a second rewrite changes nothing. */
  lemma NormalizeUserIdempotent(u: URL)
    ensures NormalizeUser(u).user.None? || NormalizeUser(u).user.value.username == ""
    ensures NormalizeUser(NormalizeUser(u)) == NormalizeUser(u)
  {
  }

  /** Written out, "password@" becomes ":password@", and ":password@" stays. */
  lemma NormalizeUserText(u: URL)
    requires u.user.Some?
    ensures NormalizeUser(u).user.Some?
    ensures u.user.value.username != "" && u.user.value.password.None? ==> UserinfoText(NormalizeUser(u).user.value) == ":" + UserinfoText(u.user.value)
    ensures u.user.value.username == "" ==> UserinfoText(NormalizeUser(u).user.value) == UserinfoText(u.user.value)
  {
  }

  /**
   * NormalizeURI: parse, rewrite the userinfo, write the URL back. url.Parse and
   * url.URL.String are parameters; a parse failure is returned as the error (the
   * string result is then "").
   */
  function NormalizeURI(uri: string, parse: string -> Result<URL, string>, format: URL -> string): (r: Result<string, string>)
    ensures parse(uri).Failure? ==> r == Failure(parse(uri).error)
    ensures parse(uri).Success? ==> r == Success(format(NormalizeUser(parse(uri).value)))
  {
    match parse(uri)
    case Failure(e) => Failure(e)
    case Success(u) => Success(format(NormalizeUser(u)))
  }

  /** When writing a URL back and parsing it again gives the same URL, normalising a
      normalised URI changes nothing. */
  lemma NormalizeURIIdempotent(uri: string, parse: string -> Result<URL, string>, format: URL -> string)
    requires forall u :: parse(format(u)) == Success(u)
    requires NormalizeURI(uri, parse, format).Success?
    ensures NormalizeURI(NormalizeURI(uri, parse, format).value, parse, format) == NormalizeURI(uri, parse, format)
  {
    var u := parse(uri).value;
    assert parse(format(NormalizeUser(u))) == Success(NormalizeUser(u));
    NormalizeUserIdempotent(u);
  }

  /** What a call does: return a value, or panic with the error. */
  datatype Outcome<T> = Returned(value: T) | Panicked(reason: string)

  /** PanicOnError: the value when there is no error; otherwise it does not return. */
  function PanicOnError<T>(v: T, err: Option<string>): (r: Outcome<T>)
    ensures r.Returned? <==> err.None?
    ensures r.Returned? ==> r.value == v
    ensures r.Panicked? ==> r.reason == err.value
  {
    match err
    case None => Returned(v)
    case Some(e) => Panicked(e)
  }
}
