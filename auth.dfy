/** The authentication middleware: reading the bearer token from the
    Authorization header, resolving it to a user, and the role gate of the
    admin routes. Token verification and the user lookup are parameters. */
module Auth {
  import opened Common
  import opened Text

  /** A user as the lookup returns it (the password field is deselected). */
  datatype User = User(id: Id, name: string, email: string, role: string)

  /** A JSON reply `{ success: false, message }` with its status code. */
  datatype Reply = Reply(status: int, message: string)

  const MissingToken := Reply(401, "Missing token")
  const UserNotFound := Reply(401, "User not found")
  const BadToken := Reply(401, "Invalid or expired token")
  const Forbidden := Reply(403, "Forbidden: insufficient role")

  const Bearer := "Bearer "

  /** The token of a bearer header: the second field of the header split on
      single spaces, which is the text after "Bearer " up to the next space. */
  function BearerToken(header: Option<string>): (t: Option<string>)
    ensures t.None? <==> header.None? || !StartsWith(header.value, Bearer)
    ensures t.Some? ==> t.value == TakeUntil(header.value[|Bearer|..], ' ')
    ensures t.Some? ==> ' ' !in t.value && StartsWith(header.value, Bearer + t.value)
  {
    if header.None? || !StartsWith(header.value, Bearer) then None
    else
      var h := header.value;
      assert h[..6] == "Bearer";
      SplitSecondField(h, ' ', 6);
      var t := TakeUntil(h[7..], ' ');
      assert StartsWith(h, Bearer + t) by {
        assert h[..7 + |t|] == h[..7] + h[7..][..|t|];
      }
      Some(Split(h, ' ')[1])
  }

  /** What `authenticate` decides: the user the request proceeds as, or the
      401 reply. `verify` stands for the token check and yields the user id the
      token carries; `users` is the user collection. */
  function Authentication(header: Option<string>, verify: string -> Option<Id>, users: map<Id, User>): (r: Result<User, Reply>)
    ensures r.Success? <==>
      && BearerToken(header).Some?
      && verify(BearerToken(header).value).Some?
      && verify(BearerToken(header).value).value in users
    ensures r.Success? ==> r.value == users[verify(BearerToken(header).value).value]
    ensures BearerToken(header).None? ==> r == Failure(MissingToken)
    ensures BearerToken(header).Some? && verify(BearerToken(header).value).None? ==> r == Failure(BadToken)
    ensures (BearerToken(header).Some? && verify(BearerToken(header).value).Some?
             && verify(BearerToken(header).value).value !in users) ==> r == Failure(UserNotFound)
    ensures r.Failure? ==> r.error.status == 401
  {
    var token := BearerToken(header);
    if token.None? then Failure(MissingToken)
    else
      var id := verify(token.value);
      if id.None? then Failure(BadToken)
      else if id.value !in users then Failure(UserNotFound)
      else Success(users[id.value])
  }

  /** `authorizeRole(role)`: the 403 reply, or `None` when the request may go on. */
  function RoleCheck(user: Option<User>, role: string): (r: Option<Reply>)
    ensures r.None? <==> user.Some? && user.value.role == role
    ensures r.Some? ==> r.value == Forbidden
  {
    if user.None? || user.value.role != role then Some(Forbidden) else None
  }

  /** An admin route is reached exactly when the header carries a token that
      verifies to an existing user whose role is "admin"; a request refused by
      `authenticate` never reaches the role check. */
  lemma AdminGate(header: Option<string>, verify: string -> Option<Id>, users: map<Id, User>)
    ensures var a := Authentication(header, verify, users);
      (a.Success? && RoleCheck(Some(a.value), "admin").None?) <==>
        && BearerToken(header).Some?
        && var id := verify(BearerToken(header).value);
        && id.Some? && id.value in users && users[id.value].role == "admin"
  {
  }

  /** A header with nothing after the scheme, or a second space right after
      it, yields an empty token rather than a missing one. */
  lemma {:induction false} BearerEmptyToken()
    ensures BearerToken(Some("Bearer ")) == Some("")
    ensures BearerToken(Some("Bearer  abc")) == Some("")
  {
    assert StartsWith("Bearer ", Bearer);
    BearerTokenEmpty("Bearer ");
    assert StartsWith("Bearer  abc", Bearer) && "Bearer  abc"[7] == ' ';
    BearerTokenEmpty("Bearer  abc");
  }

  /** A header that ends right after the scheme, or has a second space right
      after it, carries the empty token. */
  lemma BearerTokenEmpty(h: string)
    requires StartsWith(h, Bearer) && (|h| == |Bearer| || h[|Bearer|] == ' ')
    ensures BearerToken(Some(h)) == Some("")
  {
    assert |TakeUntil(h[|Bearer|..], ' ')| == 0;
  }

  /** With a single space after the scheme and none later, the token is the
      whole rest of the header. */
  lemma BearerTokenIsRest(h: string)
    requires StartsWith(h, Bearer) && ' ' !in h[|Bearer|..]
    ensures BearerToken(Some(h)) == Some(h[|Bearer|..])
  {
    var rest := h[|Bearer|..];
    var t := TakeUntil(rest, ' ');
    assert t == rest[..|t|] == rest;
    assert BearerToken(Some(h)).value == t;
  }

  /** The scheme is case-sensitive and needs its space. */
  lemma {:induction false} BearerRejected()
    ensures BearerToken(Some("bearer abc")) == None
    ensures BearerToken(Some("Bearer")) == None
    ensures BearerToken(None) == None
  {
    assert !StartsWith("bearer abc", Bearer) by {
      assert "bearer abc"[0] != Bearer[0];
    }
  }

  /** One request/response exchange as the middleware sees it: the user
      attached to the request, the reply sent, and how often `next` ran. */
  class Exchange {
    var user: Option<User>
    var reply: Option<Reply>
    var nextCalls: nat

    constructor ()
      ensures user == None && reply == None && nextCalls == 0
    {
      user := None;
      reply := None;
      nextCalls := 0;
    }

    /** `authenticate`: on success attach the user and call `next` once; on
        failure send the 401 reply and do not call `next`. */
    method Authenticate(header: Option<string>, verify: string -> Option<Id>, users: map<Id, User>)
      modifies this
      ensures var r := Authentication(header, verify, users);
        && (r.Success? ==> user == Some(r.value) && nextCalls == old(nextCalls) + 1 && reply == old(reply))
        && (r.Failure? ==> reply == Some(r.error) && nextCalls == old(nextCalls) && user == old(user))
    {
      var token := BearerToken(header);
      if token.None? {
        reply := Some(MissingToken);
        return;
      }
      var id := verify(token.value);
      if id.None? {
        reply := Some(BadToken);
        return;
      }
      if id.value !in users {
        reply := Some(UserNotFound);
        return;
      }
      user := Some(users[id.value]);
      nextCalls := nextCalls + 1;
    }

    /** The middleware `authorizeRole(role)` returns. */
    method AuthorizeRole(role: string)
      modifies this
      ensures user == old(user)
      ensures var r := RoleCheck(old(user), role);
        && (r.None? ==> nextCalls == old(nextCalls) + 1 && reply == old(reply))
        && (r.Some? ==> reply == r && nextCalls == old(nextCalls))
    {
      if user.None? || user.value.role != role {
        reply := Some(Forbidden);
      } else {
        nextCalls := nextCalls + 1;
      }
    }
  }

  /** Running `authenticate` then `authorizeRole("admin")` on a fresh exchange
      calls `next` twice exactly when the admin gate lets the request through,
      and otherwise leaves a reply. */
  method AdminRoute(header: Option<string>, verify: string -> Option<Id>, users: map<Id, User>)
    returns (passed: bool, reply: Option<Reply>)
    ensures passed <==>
      && BearerToken(header).Some?
      && var id := verify(BearerToken(header).value);
      && id.Some? && id.value in users && users[id.value].role == "admin"
    ensures passed <==> reply.None?
  {
    var ex := new Exchange();
    ex.Authenticate(header, verify, users);
    if ex.nextCalls == 1 {
      ex.AuthorizeRole("admin");
    }
    AdminGate(header, verify, users);
    passed := ex.nextCalls == 2;
    reply := ex.reply;
  }
}
