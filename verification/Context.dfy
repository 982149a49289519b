/**
 The request context of src/lua/context.rs: on values, and as the object the hooks write to.
 Header names arrive in lower case (src/handler.rs:37).
 */
module Context {
  import opened Wrappers
  import opened Jwt

  /** Why auth.lua found no valid JWT. */
  datatype JwtFailure = NoAuthorizationHeader | NotBearer | LibUnavailable | Invalid(err: JwtError)

  /** The message of a rejection, by its cause. */
  datatype Reason = TooManyRequests | Unauthorized(failure: JwtFailure) | AuthenticationRequired | InsufficientPrivileges

  datatype Rejection = Rejection(status: int, reason: Reason)

  type Strings = map<string, string>

  datatype Ctx = Ctx(
    path: string, headers: Strings, ip: string,
    resStatus: int, resHeaders: Strings, resBody: string,
    vars: Strings, rejected: Option<Rejection>)
  {
    function Reject(status: int, reason: Reason): (c: Ctx) {
      this.(rejected := Some(Rejection(status, reason)))
    }

    function SetVar(k: string, v: string): (c: Ctx) {
      this.(vars := vars[k := v])
    }

    function SetReqHeader(k: string, v: string): (c: Ctx) {
      this.(headers := headers[Lower(k) := v])
    }

    function SetResHeader(k: string, v: string): (c: Ctx) {
      this.(resHeaders := resHeaders[Lower(k) := v])
    }

    function Upstream(name: string): (c: Ctx) {
      SetVar(UPSTREAM_VAR, name)
    }
  }

  const UPSTREAM_VAR := "__upstream__"

  /** `RequestCtx::new`. */
  function NewCtx(path: string, headers: Strings, ip: string): (c: Ctx) {
    Ctx(path, headers, ip, 200, map[], "", map[], None)
  }

  function Get(m: Strings, k: string): (v: Option<string>) {
    if k in m then Some(m[k]) else None
  }

  function LowerChar(c: char): (r: char) {
    if 'A' <= c <= 'Z' then (c as int + 32) as char else c
  }

  /** `to_lowercase` on ASCII. */
  function Lower(s: string): (r: string) {
    if |s| == 0 then "" else [LowerChar(s[0])] + Lower(s[1..])
  }

  /** Character by character: the 26 capitals move by 32, everything else stays. */
  lemma {:induction false} LowerExactly(s: string)
    ensures |Lower(s)| == |s|
    ensures forall i :: 0 <= i < |s| ==>
              Lower(s)[i] as int == s[i] as int + if 'A' <= s[i] <= 'Z' then 'a' as int - 'A' as int else 0
  {
    if |s| > 0 {
      LowerExactly(s[1..]);
      assert forall i :: 0 < i < |s| ==> Lower(s)[i] == Lower(s[1..])[i - 1] && s[i] == s[1..][i - 1];
    }
  }

  lemma {:induction false} LowerKeeps(s: string)
    requires forall i :: 0 <= i < |s| ==> !('A' <= s[i] <= 'Z')
    ensures Lower(s) == s
  {
    if |s| > 0 { LowerKeeps(s[1..]); }
  }

  /** `Arc<Mutex<RequestCtx>>`: the one object all hooks of a request write to. */
  class RequestCtx {
    const path: string
    const ip: string
    var headers: Strings
    var resStatus: int
    var resHeaders: Strings
    var resBody: string
    var vars: Strings
    var rejected: Option<Rejection>

    constructor (path: string, headers: Strings, ip: string)
      ensures View() == NewCtx(path, headers, ip)
    {
      this.path := path;
      this.ip := ip;
      this.headers := headers;
      resStatus := 200;
      resHeaders := map[];
      resBody := "";
      vars := map[];
      rejected := None;
    }

    ghost function View(): (c: Ctx)
      reads this
    {
      Ctx(path, headers, ip, resStatus, resHeaders, resBody, vars, rejected)
    }

    method Reject(status: int, reason: Reason)
      modifies this
      ensures View() == old(View()).Reject(status, reason)
    {
      rejected := Some(Rejection(status, reason));
    }

    method SetVar(k: string, v: string)
      modifies this
      ensures View() == old(View()).SetVar(k, v)
    {
      vars := vars[k := v];
    }

    method SetReqHeader(k: string, v: string)
      modifies this
      ensures View() == old(View()).SetReqHeader(k, v)
    {
      headers := headers[Lower(k) := v];
    }

    method SetResHeader(k: string, v: string)
      modifies this
      ensures View() == old(View()).SetResHeader(k, v)
    {
      resHeaders := resHeaders[Lower(k) := v];
    }

    method Upstream(name: string)
      modifies this
      ensures View() == old(View()).Upstream(name)
    {
      SetVar(UPSTREAM_VAR, name);
    }

    /** The response fields before the on_response hooks (src/handler.rs:116-121). */
    method SetResponse(status: int, newHeaders: Strings, body: string)
      modifies this
      ensures View() == old(View()).(resStatus := status, resHeaders := newHeaders, resBody := body)
    {
      resStatus := status;
      resHeaders := newHeaders;
      resBody := body;
    }
  }
}
