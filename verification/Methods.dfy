/** The method matcher: every method of the table is reached by its own name. */
module Methods {
  import opened Bytes
  import opened Machine

  /** The method that the matcher has chosen after the first `n` bytes of `w`. */
  function Chosen(w: string, n: nat): MaybeMethod
    requires 1 <= n <= |w|
  {
    if n == 1 then FirstMethod(w[0])
    else
      match Chosen(w, n - 1)
      case NoMethod => NoMethod
      case SomeMethod(m) =>
        if At(MethodString(m), n - 1) == w[n - 1] then SomeMethod(m) else OtherMethod(m, n - 1, w[n - 1])
  }

  ghost predicate Reached(m: Method) {
    MethodString(m) != [] && Chosen(MethodString(m), |MethodString(m)|) == SomeMethod(m)
  }

  lemma BasicReached()
    ensures Reached(GET) && Reached(HEAD) && Reached(POST) && Reached(PUT)
  {
    assert Chosen("GET", 3) == SomeMethod(GET);
    assert Chosen("HEAD", 4) == SomeMethod(HEAD);
    assert Chosen("POST", 4) == SomeMethod(POST);
    assert Chosen("PUT", 3) == SomeMethod(PUT);
  }

  lemma DeleteReached()
    ensures Reached(DELETE) && Reached(PATCH) && Reached(PURGE)
  {
    assert Chosen("DELETE", 6) == SomeMethod(DELETE);
    assert Chosen("PATCH", 5) == SomeMethod(PATCH);
    assert Chosen("PURGE", 5) == SomeMethod(PURGE);
  }

  lemma TraceReached()
    ensures Reached(OPTIONS) && Reached(TRACE)
  {
    assert Chosen("OPTIONS", 7) == SomeMethod(OPTIONS);
    assert Chosen("TRACE", 5) == SomeMethod(TRACE);
  }

  lemma ConnectReached()
    ensures Reached(CONNECT) && Reached(COPY) && Reached(CHECKOUT)
  {
    assert Chosen("CONNECT", 7) == SomeMethod(CONNECT);
    assert Chosen("COPY", 4) == SomeMethod(COPY);
    assert Chosen("CHECKOUT", 8) == SomeMethod(CHECKOUT);
  }

  lemma MakeReached()
    ensures Reached(MKCOL) && Reached(MOVE) && Reached(MERGE)
  {
    assert Chosen("MKCOL", 5) == SomeMethod(MKCOL);
    assert Chosen("MOVE", 4) == SomeMethod(MOVE);
    assert Chosen("MERGE", 5) == SomeMethod(MERGE);
  }

  lemma SearchReached()
    ensures Reached(SEARCH)
  {
    assert Chosen("SEARCH", 6) == SomeMethod(SEARCH);
  }

  lemma MSearchReached()
    ensures Reached(MSEARCH)
  {
    assert Chosen("M-SEARCH", 8) == SomeMethod(MSEARCH);
  }

  lemma MakeLongReached()
    ensures Reached(MKACTIVITY)
  {
    assert Chosen("MKACTIVITY", 10) == SomeMethod(MKACTIVITY);
  }

  lemma CalendarReached()
    ensures Reached(MKCALENDAR)
  {
    assert Chosen("MKCALENDAR", 10) == SomeMethod(MKCALENDAR);
  }

  lemma PropReached()
    ensures Reached(PROPFIND) && Reached(PROPPATCH)
  {
    assert Chosen("PROPFIND", 8) == SomeMethod(PROPFIND);
    assert Chosen("PROPPATCH", 9) == SomeMethod(PROPPATCH);
  }

  lemma LockReached()
    ensures Reached(LOCK) && Reached(LINK) && Reached(UNLOCK)
  {
    assert Chosen("LOCK", 4) == SomeMethod(LOCK);
    assert Chosen("LINK", 4) == SomeMethod(LINK);
    assert Chosen("UNLOCK", 6) == SomeMethod(UNLOCK);
  }

  lemma BindReached()
    ensures Reached(BIND) && Reached(REBIND) && Reached(UNBIND)
  {
    assert Chosen("BIND", 4) == SomeMethod(BIND);
    hide Chosen;
    RebindReached();
    UnbindReached();
  }

  lemma RebindReached()
    ensures Reached(REBIND)
  {
    assert Chosen("REBIND", 6) == SomeMethod(REBIND);
  }

  lemma UnbindReached()
    ensures Reached(UNBIND)
  {
    assert Chosen("UNBIND", 6) == SomeMethod(UNBIND);
  }

  lemma ReportReached()
    ensures Reached(ACL) && Reached(REPORT) && Reached(NOTIFY)
  {
    assert Chosen("ACL", 3) == SomeMethod(ACL);
    assert Chosen("REPORT", 6) == SomeMethod(REPORT);
    assert Chosen("NOTIFY", 6) == SomeMethod(NOTIFY);
  }

  lemma SubscribeReached()
    ensures Reached(SUBSCRIBE)
  {
    assert Chosen("SUBSCRIBE", 9) == SomeMethod(SUBSCRIBE);
  }

  lemma UnlinkReached()
    ensures Reached(UNLINK)
  {
    assert Chosen("UNLINK", 6) == SomeMethod(UNLINK);
  }

  lemma UnsubscribeReached()
    ensures Reached(UNSUBSCRIBE)
  {
    assert Chosen("UNSUBSCRIBE", 11) == SomeMethod(UNSUBSCRIBE);
  }

  /** Its own name leads the matcher to each of the 33 methods. */
  lemma MethodReached(m: Method)
    ensures Reached(m)
  {
    hide Reached;
    BasicReached();
    DeleteReached();
    TraceReached();
    ConnectReached();
    MakeReached();
    SearchReached();
    MSearchReached();
    MakeLongReached();
    CalendarReached();
    PropReached();
    LockReached();
    BindReached();
    ReportReached();
    SubscribeReached();
    UnlinkReached();
    UnsubscribeReached();
    match m
    case DELETE =>
    case GET =>
    case HEAD =>
    case POST =>
    case PUT =>
    case CONNECT =>
    case OPTIONS =>
    case TRACE =>
    case COPY =>
    case LOCK =>
    case MKCOL =>
    case MOVE =>
    case PROPFIND =>
    case PROPPATCH =>
    case SEARCH =>
    case UNLOCK =>
    case BIND =>
    case REBIND =>
    case UNBIND =>
    case ACL =>
    case REPORT =>
    case MKACTIVITY =>
    case CHECKOUT =>
    case MERGE =>
    case MSEARCH =>
    case NOTIFY =>
    case SUBSCRIBE =>
    case UNSUBSCRIBE =>
    case PATCH =>
    case PURGE =>
    case MKCALENDAR =>
    case LINK =>
    case UNLINK =>
  }

  lemma MethodLetters(m: Method)
    ensures forall c :: c in MethodString(m) ==> 'A' <= c <= 'Z' || c == '-'
    ensures MethodString(m) != [] && MethodString(m)[0] != CR && MethodString(m)[0] != LF
  {
  }

  /** Longer prefixes are reached through shorter ones. */
  lemma {:induction false} ChosenEarlier(w: string, k: nat, n: nat)
    requires 1 <= k <= n <= |w| && Chosen(w, n).SomeMethod?
    ensures Chosen(w, k).SomeMethod?
    decreases n
  {
    hide FirstMethod, OtherMethod, MethodString, Bytes.At;
    if k < n { ChosenEarlier(w, k, n - 1); }
  }
}
