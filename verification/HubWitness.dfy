/** Runs from the empty hub that reach the states in which the invariants break. */
module HubWitness {
  import opened HubState
  import opened HubRoster
  import opened HubTopics
  import opened HubMessages
  import opened HubRuns
  import opened HubOpen

  /** A run and its states, all of whose steps are allowed. */
  datatype Trace = Trace(es: seq<Step>, sts: seq<HubS>) {
    ghost predicate Ok() { IsRun(es, sts) && AllAllowed(es, sts, |es|) }

    ghost function End(): HubS
      requires Ok()
    {
      sts[|es|]
    }
  }

  const NOTHING_YET := Trace([], [START])

  lemma RunOneMore(es: seq<Step>, sts: seq<HubS>, e: Step)
    requires IsRun(es, sts) && Defined(sts[|es|], e)
    ensures IsRun(es + [e], sts + [Take(sts[|es|], e)])
  {
    var fs, us := es + [e], sts + [Take(sts[|es|], e)];
    forall i | 0 <= i < |fs| ensures Defined(us[i], fs[i]) && us[i + 1] == Take(us[i], fs[i]) {
      assert us[i] == sts[i];
      if i < |es| {
        assert fs[i] == es[i] && us[i + 1] == sts[i + 1];
      }
    }
  }

  /** One step more. */
  lemma More(t: Trace, e: Step) returns (u: Trace)
    requires t.Ok() && Allowed(t.End(), e)
    ensures Good(t.End())
    ensures u.Ok() && |u.es| == |t.es| + 1 && u.End() == Take(t.End(), e) && Good(u.End())
  {
    u := Trace(t.es + [e], t.sts + [Take(t.End(), e)]);
    RunOneMore(t.es, t.sts, e);
    forall k | 0 <= k < |u.es| ensures AllowedAt(u.es, u.sts, k) {
      assert k < |t.es| ==> AllowedAt(t.es, t.sts, k);
    }
    AllowedRunIsGood(t.es, t.sts, |t.es|);
    AllowedRunIsGood(u.es, u.sts, |u.es|);
  }

  lemma AllowedRunIsGood(es: seq<Step>, sts: seq<HubS>, n: nat)
    requires IsRun(es, sts) && n < |sts| && AllAllowed(es, sts, n)
    ensures Good(sts[n])
  {
    RunIsGoodIff(es, sts, n);
    assert GoodAt(sts, n);
  }

  function Fresh(c: Client): ClientS {
    ClientS(c.conn, null, "", false, false, [])
  }

  lemma ArrivalIs(st: HubS, c: Client)
    ensures var r := Connect(Arrive(st, c), c);
            && r.clients == st.clients[c := Fresh(c)] && r.guests == st.guests + [c]
            && r.users == st.users && r.people == st.people
  {
  }

  /** A login under a name that is not registered. */
  lemma NewUserLoginIs(st: HubS, uid: string, appId: string, c: Client, nu: User)
    requires Closed(st) && c in st.clients && uid !in st.users && nu !in st.people
    ensures var r := UserLogin(st, uid, appId, c, nu);
            && r.users == st.users[uid := nu] && r.people == st.people[nu := UserS(uid, [c], {}, 0)]
            && r.clients == st.clients[c := st.clients[c].(user := nu, appId := appId, isLogin := true)]
  {
    LoginIs(st, uid, appId, c, nu);
    var r := UserLogin(st, uid, appId, c, nu);
    assert LoginList(st.clients, [], appId, c) == [c];
    assert r.people == st.people[nu := UserS(uid, [], {}, 0)][nu := UserS(uid, [c], {}, 0)];
  }

  // ----- a connection that has arrived, and one that has logged in

  ghost predicate JustArrived(st: HubS, c: Client) {
    Good(st) && st.users == map[] && st.people == map[] && st.clients == map[c := Fresh(c)]
  }

  lemma ArrivedOnce(c: Client) returns (t: Trace)
    ensures t.Ok() && JustArrived(t.End(), c)
  {
    t := More(NOTHING_YET, Arrival(c));
    ArrivalIs(START, c);
  }

  /** The only client is `c`, logged in as n under a; `u` is the user object, registered, and has this list. */
  ghost predicate OneUser(st: HubS, c: Client, u: User, list: seq<Client>, closed: bool) {
    && Good(st) && st.users == map["n" := u] && st.people == map[u := UserS("n", list, {}, 0)]
    && st.clients == map[c := ClientS(c.conn, u, "a", true, closed, [])]
  }

  lemma FirstLogin(st: HubS, c: Client, u: User)
    requires JustArrived(st, c)
    ensures Allowed(st, Login("n", "a", c, u))
    ensures Good(UserLogin(st, "n", "a", c, u)) ==> OneUser(UserLogin(st, "n", "a", c, u), c, u, [c], false)
  {
    NewUserLoginIs(st, "n", "a", c, u);
  }

  lemma LoggedInOnce(c: Client, u: User) returns (t: Trace)
    ensures t.Ok() && OneUser(t.End(), c, u, [c], false)
  {
    t := ArrivedOnce(c);
    FirstLogin(t.End(), c, u);
    t := More(t, Login("n", "a", c, u));
  }

  // ----- a listed client logs in elsewhere

  /** Then it is in two places, or twice in one. */
  lemma ListedClientLogsInAgain(c: Client, u: User, v: User) returns (t: Trace)
    requires u != v
    ensures t.Ok() && Good(t.End()) && c in t.End().clients
    ensures var st := t.End(); "m" !in st.users && v !in st.people && !Roster(UserLogin(st, "m", "a", c, v))
    ensures var st := t.End(); "n" in st.users && !Roster(UserLogin(st, "n", "b", c, u))
  {
    t := LoggedInOnce(c, u);
    var st := t.End();
    assert ListedBy(st, u, c);
    LoginKeepsRosterIff(st, "m", "a", c, v);
    LoginKeepsRosterIff(st, "n", "b", c, u);
  }

  lemma FirstOfAny(cs: seq<Client>)
    ensures cs == [] || exists c :: c in cs
  {
    if cs != [] {
      assert cs[0] in cs;
    }
  }

  lemma NoGuests(st: HubS, c: Client, u: User)
    requires OneUser(st, c, u, [c], false)
    ensures st.guests == []
  {
    FirstOfAny(st.guests);
  }

  /** And if it is twice on one list, a broadcast reaches it twice. */
  lemma TwiceListedHearsTwice(c: Client, u: User, body: int) returns (t: Trace)
    ensures t.Ok() && Defined(t.End(), Login("n", "b", c, u))
    ensures var st := UserLogin(t.End(), "n", "b", c, u);
            && Closed(st) && Ranges(["n"], st.users.Keys) && c in st.clients && c in t.End().clients
            && Broadcast(st, body, ["n"]).clients[c].outbox == st.clients[c].outbox + [Cast(body), Cast(body)]
  {
    t := LoggedInOnce(c, u);
    var m := t.End().clients;
    NoGuests(t.End(), c, u);
    LoginClosed(t.End(), "n", "b", c, u);
    LoginIs(t.End(), "n", "b", c, u);
    assert LoginList(m, [c], "b", c) == [c, c];
    TwoCopies(UserLogin(t.End(), "n", "b", c, u), c, u, body);
  }

  lemma TwoCopies(st: HubS, c: Client, u: User, body: int)
    requires Closed(st) && st.guests == [] && st.users == map["n" := u]
    requires u in st.people && st.people[u].appClients == [c, c]
    requires c in st.clients && !st.clients[c].closed
    ensures Broadcast(st, body, ["n"]).clients[c].outbox == st.clients[c].outbox + [Cast(body), Cast(body)]
  {
    var m := Cast(body);
    assert st.guests + ClientsOf(st, ["n"]) == [c, c];
    assert [c, c][..1] == [c];
    assert SendAll(st, [], m) == st;
    assert SendAll(st, [c], m) == Send(st, c, m);
    assert SendAll(st, [c, c], m) == Send(Send(st, c, m), c, m);
  }

  // ----- a connection is replaced

  /** `c` is on the list of the user n under app a, and open; `d` is free to log in. */
  ghost predicate Rival(st: HubS, c: Client, u: User, d: Client) {
    && Good(st) && "n" in st.users && st.users["n"] == u && ListedBy(st, u, c)
    && OpenIn(st, c) && st.clients[c].appId == "a"
    && d in st.clients && d != c && !ListedByAny(st, d)
  }

  lemma SecondArrivalIs(st: HubS, c: Client, u: User, d: Client)
    requires OneUser(st, c, u, [c], false) && c.conn != d.conn
    ensures Allowed(st, Arrival(d))
    ensures var r := Connect(Arrive(st, d), d); Good(r) ==> Rival(r, c, u, d)
  {
    ArrivalIs(st, d);
  }

  lemma RivalWins(st: HubS, c: Client, u: User, d: Client)
    requires Rival(st, c, u, d)
    ensures Allowed(st, Login("n", "a", d, u))
    ensures var r := UserLogin(st, "n", "a", d, u); Adrift(r, c) && OpenIn(r, c) && r.pending[c] > 0
  {
    var e := Login("n", "a", d, u);
    LoginGivesAdrift(st, e, c);
    ReplacedIsQueued(st, "n", "a", d, c);
  }

  /** It stays open after the disconnect that the login has queued for it, and is on no list. */
  lemma ReplacedConnection(c: Client, d: Client, u: User) returns (t: Trace)
    requires c.conn != d.conn
    ensures t.Ok() && Adrift(t.End(), c) && OpenIn(t.End(), c)
  {
    t := LoggedInOnce(c, u);
    SecondArrivalIs(t.End(), c, u, d);
    t := More(t, Arrival(d));
    RivalWins(t.End(), c, u, d);
    t := More(t, Login("n", "a", d, u));
    StepLeavesAdrift(t.End(), Leave(c), c);
    t := More(t, Leave(c));
  }

  // ----- a user object that is no longer registered

  lemma LastLogoutIs(st: HubS, c: Client, u: User)
    requires Closed(st) && st.people == map[u := UserS("n", [c], {}, 0)]
    requires st.clients == map[c := ClientS(c.conn, u, "a", true, false, [])]
    ensures var r := AppLogout(st, u, "a", c);
            && r.users == st.users && r.people == map[u := UserS("n", [], {}, 0)]
            && r.clients == map[c := ClientS(c.conn, u, "a", true, true, [])]
  {
    var m, cs := st.clients, [c];
    assert ConnIndex(m, cs, "a", c.conn) == 0 && DeleteAt(cs, 0) == [];
    var r := AppLogout(st, u, "a", c);
    assert r.people == st.people[u := UserS("n", [], {}, 0)];
  }

  lemma LastLeaveIs(st: HubS, c: Client, u: User)
    requires OneUser(st, c, u, [c], false)
    ensures var r := Disconnect(st, c); Good(r) ==> OneUser(r, c, u, [], true)
  {
    LastLogoutIs(Pub(st, "disconnect"), c, u);
  }

  /** The user object `u`, called n, is known but not registered, and lists nobody. */
  ghost predicate Stray(st: HubS, c: Client, u: User) {
    && Good(st) && st.users == map[] && st.people.Keys == {u}
    && st.people[u].suid == "n" && st.people[u].appClients == []
    && st.clients.Keys == {c} && st.clients[c].conn == c.conn
  }

  lemma SweepSpares(st: HubS, order: seq<string>, now: int)
    requires Closed(st) && Ranges(order, st.users.Keys)
    ensures Spares(st, Sweep(st, order, now))
  {
    assert Spares(st, VisitAll(st, order, now));
  }

  lemma GuardLeavesStray(st: HubS, c: Client, u: User)
    requires OneUser(st, c, u, [], true)
    ensures Ranges(["n"], st.users.Keys)
    ensures var r := Sweep(st, ["n"], CLEANUP_TTL); Good(r) ==> Stray(r, c, u)
  {
    assert Ranges(["n"], st.users.Keys);
    assert Stale(st, "n", CLEANUP_TTL);
    SweepUnregisters(st, CLEANUP_TTL);
    SweepSpares(st, ["n"], CLEANUP_TTL);
    var r := Sweep(st, ["n"], CLEANUP_TTL);
    assert r.people[u].(subTopics := {}) == st.people[u].(subTopics := {});
  }

  lemma SweepUnregisters(st: HubS, now: int)
    requires Roster(st) && Ranges(["n"], st.users.Keys) && Stale(st, "n", now)
    ensures Sweep(st, ["n"], now).users == map[]
  {
    SweepResult(st, ["n"], now);
    var r := Sweep(st, ["n"], now);
    forall s ensures s !in r.users {
      assert s in st.users ==> s in ["n"];
    }
  }

  lemma StrayUser(c: Client, u: User) returns (t: Trace)
    ensures t.Ok() && Stray(t.End(), c, u)
  {
    t := LoggedInOnce(c, u);
    ghost var st := t.End();
    t := More(t, Report(c));
    assert t.End().(pending := t.End().pending - multiset{c}) == st;
    LastLeaveIs(st, c, u);
    t := More(t, Leave(c));
    GuardLeavesStray(t.End(), c, u);
    t := More(t, Guard(["n"], CLEANUP_TTL));
  }

  /** A stray user that subscribes is on the topic's side only. */
  lemma StraySubscribes(c: Client, u: User, x: string) returns (t: Trace)
    ensures t.Ok() && Good(t.End()) && u in t.End().people && !Mirrored(Sub(t.End(), x, u))
  {
    t := StrayUser(c, u);
    SubKeepsMirrorIff(t.End(), x, u);
  }

  /** A second user object of the name is registered and subscribed. */
  ghost predicate TwoOfAName(st: HubS, u: User, x: string) {
    && Good(st) && u in st.people && st.people[u].suid == "n" && !Registered(st, u) && Holds(st, "n", x)
  }

  lemma SecondOfTheName(st: HubS, c: Client, u: User, d: Client, v: User)
    requires Stray(st, c, u) && u != v && c.conn != d.conn
    ensures Allowed(st, Arrival(d))
    ensures var r := Connect(Arrive(st, d), d); Good(r) ==>
              && Allowed(r, Login("n", "a", d, v))
              && var q := UserLogin(r, "n", "a", d, v);
                 q.users == map["n" := v] && u in q.people && q.people[u].suid == "n"
                 && v in q.people && q.people[v].suid == "n"
  {
    ArrivalIs(st, d);
    var r := Connect(Arrive(st, d), d);
    if Good(r) {
      NewUserLoginIs(r, "n", "a", d, v);
    }
  }

  lemma Subscribed(st: HubS, u: User, v: User, x: string)
    requires Good(st) && st.users == map["n" := v] && u != v
    requires u in st.people && st.people[u].suid == "n" && v in st.people && st.people[v].suid == "n"
    ensures Allowed(st, Subscribe(x, v)) && (Good(Sub(st, x, v)) ==> TwoOfAName(Sub(st, x, v), u, x))
  {
  }

  lemma TwoUsers(c: Client, u: User, d: Client, v: User, x: string) returns (t: Trace)
    requires u != v && c.conn != d.conn
    ensures t.Ok() && TwoOfAName(t.End(), u, x)
  {
    t := StrayUser(c, u);
    SecondOfTheName(t.End(), c, u, d, v);
    t := More(t, Arrival(d));
    t := More(t, Login("n", "a", d, v));
    Subscribed(t.End(), u, v, x);
    t := More(t, Subscribe(x, v));
  }

  /** A stray user that unsubscribes takes the name off the topic's side only. */
  lemma StrayUnsubscribes(c: Client, u: User, d: Client, v: User, x: string) returns (t: Trace)
    requires u != v && c.conn != d.conn
    ensures t.Ok() && Good(t.End()) && u in t.End().people && !Mirrored(Unsub(t.End(), x, u))
  {
    t := TwoUsers(c, u, d, v, x);
    UnsubKeepsMirrorIff(t.End(), x, u);
  }

  lemma StraySubscribed(st: HubS, u: User, x: string)
    requires TwoOfAName(st, u, x)
    ensures Allowed(st, Subscribe(x, u))
    ensures var r := Sub(st, x, u);
            u in r.people && x in r.people[u].subTopics && !Registered(r, u) && Holds(r, r.people[u].suid, x)
  {
  }

  /** So does one that drops the topic, or all of them, when it has subscribed while the registered user had the topic
    * too. */
  lemma StrayDrops(c: Client, u: User, d: Client, v: User, x: string) returns (t: Trace)
    requires u != v && c.conn != d.conn
    ensures t.Ok() && Good(t.End()) && u in t.End().people
    ensures !Mirrored(UnsubTopic(t.End(), x, u)) && !Mirrored(UnsubAll(t.End(), u))
  {
    t := TwoUsers(c, u, d, v, x);
    StraySubscribed(t.End(), u, x);
    t := More(t, Subscribe(x, u));
    UnsubTopicKeepsMirrorIff(t.End(), x, u);
    UnsubAllKeepsMirrorIff(t.End(), u);
  }

  // ----- a closed connection logs in

  lemma GuestLeaveIs(st: HubS, c: Client)
    requires JustArrived(st, c)
    ensures var r := Disconnect(st, c);
            r.users == map[] && r.people == map[] && r.clients == map[c := Fresh(c).(closed := true)]
  {
  }

  lemma LateLoginIs(st: HubS, c: Client, u: User)
    requires Good(st) && st.users == map[] && st.people == map[] && c in st.clients && st.clients[c].closed
    ensures Allowed(st, Login("n", "a", c, u))
    ensures var r := UserLogin(st, "n", "a", c, u);
            r.users == map["n" := u] && c in r.clients && r.clients[c].closed && ListedBy(r, u, c)
  {
    NewUserLoginIs(st, "n", "a", c, u);
  }

  /** It is on the user's list, and no broadcast reaches it. */
  lemma LateLogin(c: Client, u: User, body: int) returns (t: Trace)
    ensures t.Ok() && Good(t.End()) && !AllOpen(t.End())
    ensures var st := t.End();
            && Ranges(["n"], st.users.Keys) && c in st.clients && Listed(st, c)
            && Broadcast(st, body, ["n"]).clients[c] == st.clients[c]
  {
    t := ArrivedOnce(c);
    ghost var st := t.End();
    t := More(t, Report(c));
    assert t.End().(pending := t.End().pending - multiset{c}) == st;
    GuestLeaveIs(st, c);
    t := More(t, Leave(c));
    LateLoginIs(t.End(), c, u);
    t := More(t, Login("n", "a", c, u));
    assert ListedBy(t.End(), u, c) && !OpenIn(t.End(), c);
    BroadcastOnce(t.End(), body, ["n"], c);
  }
}
