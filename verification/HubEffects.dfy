/** All that a step does to the lists, the clients, the users, the subscriptions and the Disconnect channel, told
  * from the state before it. */
module HubEffects {
  import opened HubState
  import opened HubRoster
  import opened HubTopics
  import opened HubMessages
  import opened HubRuns
  import opened HubOpen

  // ----- who is listed where

  /** The user that a login is for. */
  function UserFor(st: HubS, e: Step): User
    requires e.Login?
  {
    if e.uid in st.users then st.users[e.uid] else e.nu
  }

  /** A guest comes by its arrival and goes by its leave or its login; a listed client comes by its login, and goes
    * by its leave or by the login of another connection of its app. */
  lemma ListsChange(st: HubS, e: Step, u: User, d: Client)
    requires Roster(st) && Defined(st, e) && Fits(st, e)
    ensures var r := Take(st, e);
            && (d in r.guests <==> Arrives(e, d) || (d in st.guests && !Leaves(e, d) && !LogsIn(e, d)))
            && (ListedBy(r, u, d) <==>
                  || (LogsIn(e, d) && u == UserFor(st, e))
                  || (ListedBy(st, u, d) && !Leaves(e, d) &&
                      !(e.Login? && GivesWay(st, e.uid, e.appId, e.c, d))))
  {
    if e.Leave? {
      LeaveLists(st, e.c, u, d);
    } else if e.Login? {
      LoginMovesOnly(st, e.uid, e.appId, e.c, e.nu, u, d);
    } else if !e.Arrival? {
      QuietStep(st, e);
    }
  }

  lemma LeaveLists(st: HubS, c: Client, u: User, d: Client)
    requires Roster(st) && c in st.clients
    ensures var r := Disconnect(st.(pending := st.pending - multiset{c}), c);
            && (d in r.guests <==> d in st.guests && d != c)
            && (ListedBy(r, u, d) <==> ListedBy(st, u, d) && d != c)
  {
    var s := st.(pending := st.pending - multiset{c});
    SameRoster(st, s);
    DisconnectGuests(s, c, d);
    DisconnectMovesOnly(s, c, u, d);
    assert ListedBy(s, u, d) <==> ListedBy(st, u, d);
  }

  // ----- what a client is

  /** The client after a step: only its login sets user, app and mark, only its leave closes it, and its outbox grows by
    * what arrives. */
  ghost function ClientAfter(st: HubS, e: Step, d: Client): ClientS
    requires Defined(st, e) && (d in st.clients || Arrives(e, d))
  {
    if Arrives(e, d) then ClientS(d.conn, null, "", false, false, [])
    else
      var x := st.clients[d];
      if LogsIn(e, d) then x.(user := UserFor(st, e), appId := e.appId, isLogin := true)
      else x.(closed := x.closed || (Leaves(e, d) && Closes(st, d)), outbox := x.outbox + Arrived(st, e, d))
  }

  ghost predicate Becomes(st: HubS, e: Step, r: HubS, d: Client)
    requires Defined(st, e)
  {
    && (d in r.clients <==> d in st.clients || Arrives(e, d))
    && (d in r.clients ==> r.clients[d] == ClientAfter(st, e, d))
  }

  lemma ClientsChange(st: HubS, e: Step, d: Client)
    requires Roster(st) && Defined(st, e)
    ensures Becomes(st, e, Take(st, e), d)
  {
    match e
    case Arrival(c) => ArrivalBecomes(st, e, d);
    case Leave(c) => LeaveBecomes(st, e, d);
    case Login(uid, appId, c, nu) => LoginBecomes(st, e, d);
    case Deliver(order) => DeliverBecomes(st, e, d);
    case Cry(body, order) => CryBecomes(st, e, d);
    case Tell(to, body) => TellBecomes(st, e, d);
    case _ => QuietClients(st, e);
  }

  lemma ArrivalBecomes(st: HubS, e: Step, d: Client)
    requires Defined(st, e) && e.Arrival?
    ensures Becomes(st, e, Take(st, e), d)
  {
  }

  lemma LoginBecomes(st: HubS, e: Step, d: Client)
    requires Roster(st) && Defined(st, e) && e.Login?
    ensures Becomes(st, e, Take(st, e), d)
  {
    var r := Take(st, e);
    LoginClients(st, e.uid, e.appId, e.c, e.nu);
    assert r.clients.Keys == st.clients.Keys;
    if d in st.clients && d != e.c {
      assert Arrived(st, e, d) == [] && r.clients[d] == st.clients[d];
    }
  }

  lemma LoginClients(st: HubS, uid: string, appId: string, c: Client, nu: User)
    requires Roster(st) && c in st.clients && (uid in st.users || nu !in st.people)
    ensures UserLogin(st, uid, appId, c, nu).clients ==
            var u := if uid in st.users then st.users[uid] else nu;
            st.clients[c := st.clients[c].(user := u, appId := appId, isLogin := true)]
  {
    LoginSets(st, uid, appId, c, nu, nu);
  }

  lemma LeaveBecomes(st: HubS, e: Step, d: Client)
    requires Roster(st) && Defined(st, e) && e.Leave?
    ensures Becomes(st, e, Take(st, e), d)
  {
    LeaveClients(st, e.c);
  }

  lemma DeliverBecomes(st: HubS, e: Step, d: Client)
    requires Roster(st) && Defined(st, e) && e.Deliver?
    ensures Becomes(st, e, Take(st, e), d)
  {
    QuietStep(st, e);
    if d in st.clients {
      DrainOnce(st, e.order, d);
    }
  }

  lemma CryBecomes(st: HubS, e: Step, d: Client)
    requires Roster(st) && Defined(st, e) && e.Cry?
    ensures Becomes(st, e, Take(st, e), d)
  {
    QuietStep(st, e);
    if d in st.clients {
      BroadcastOnce(st, e.body, e.order, d);
    }
  }

  lemma TellBecomes(st: HubS, e: Step, d: Client)
    requires Roster(st) && Defined(st, e) && e.Tell?
    ensures Becomes(st, e, Take(st, e), d)
  {
    QuietStep(st, e);
    if d in st.clients {
      SendToOnce(st, e.to, e.body, d);
    }
  }

  lemma LeaveClients(st: HubS, c: Client)
    requires Roster(st) && c in st.clients
    ensures var r := Disconnect(st.(pending := st.pending - multiset{c}), c);
            r.clients == if Closes(st, c) then st.clients[c := st.clients[c].(closed := true)] else st.clients
  {
    var s := st.(pending := st.pending - multiset{c});
    SameRoster(st, s);
    DisconnectCloses(s, c);
  }

  lemma QuietClients(st: HubS, e: Step)
    requires Defined(st, e) && Silent(e) && !e.Arrival? && !e.Leave? && !e.Login?
    ensures Take(st, e).clients == st.clients
  {
    match e
    case Drop(t, u) => SameUnsubTopic(st, t, u);
    case _ =>
  }

  // ----- what a user is

  /** The registered users after a step: a login adds its user, a guard takes out the idle ones. */
  ghost function UsersAfter(st: HubS, e: Step): map<string, User>
    requires Defined(st, e)
  {
    match e
    case Login(uid, _, _, _) => st.users[uid := UserFor(st, e)]
    case Guard(_, now) => map s | s in st.users && !Idle(st, s, now) :: st.users[s]
    case _ => st.users
  }

  lemma UsersChange(st: HubS, e: Step)
    requires Roster(st) && Defined(st, e)
    ensures Take(st, e).users == UsersAfter(st, e)
  {
    match e
    case Leave(c) => LeaveUsers(st.(pending := st.pending - multiset{c}), c);
    case Login(uid, appId, c, nu) => LoginSets(st, uid, appId, c, nu, nu);
    case Guard(order, now) => SweepUsers(st, order, now);
    case _ => OtherUsers(st, e);
  }

  lemma SweepUsers(st: HubS, order: seq<string>, now: int)
    requires Roster(st) && Ranges(order, st.users.Keys)
    ensures Sweep(st, order, now).users == map s | s in st.users && !Idle(st, s, now) :: st.users[s]
  {
    SweepResult(st, order, now);
  }

  lemma LeaveUsers(st: HubS, c: Client)
    requires Closed(st) && c in st.clients
    ensures Disconnect(st, c).users == st.users
  {
  }

  lemma OtherUsers(st: HubS, e: Step)
    requires Defined(st, e) && !e.Leave? && !e.Login? && !e.Guard?
    ensures Take(st, e).users == st.users
  {
    match e
    case Drop(t, u) => SameUnsubTopic(st, t, u);
    case _ =>
  }

  /** The topics a user has after a step. */
  ghost function TopicsAfter(st: HubS, e: Step, u: User): set<string>
    requires Defined(st, e) && u in st.people
  {
    var p := st.people[u];
    match e
    case Subscribe(t, v) => if u == v then p.subTopics + {t} else p.subTopics
    case Unsubscribe(t, v) => if u == v && t in st.topics then p.subTopics - {t} else p.subTopics
    case Drop(t, v) => if u == v then p.subTopics - {t} else p.subTopics
    case DropAll(v) => if u == v then {} else p.subTopics
    case Guard(_, now) => if Registered(st, u) && Idle(st, p.suid, now) then {} else p.subTopics
    case _ => p.subTopics
  }

  /** Of a user, besides its list, a step changes only the topics, and a heartbeat the time. */
  ghost function PersonAfter(st: HubS, e: Step, u: User): UserS
    requires Defined(st, e) && u in st.people
  {
    var p := st.people[u];
    UserS(p.suid, [], TopicsAfter(st, e, u), if e.Beat? && e.u == u then e.now else p.lastHeartbeat)
  }

  lemma PeopleChange(st: HubS, e: Step, u: User)
    requires Roster(st) && Defined(st, e) && u in st.people
    ensures u in Take(st, e).people && Take(st, e).people[u].(appClients := []) == PersonAfter(st, e, u)
  {
    match e
    case Leave(c) => LeavePeople(st.(pending := st.pending - multiset{c}), c, u);
    case Login(uid, appId, c, nu) => LoginSets(st, uid, appId, c, nu, u);
    case Guard(order, now) => SweepPeople(st, order, now, u);
    case Drop(t, v) => DropPeople(st, t, v, u);
    case DropAll(v) => DropAllPeople(st, v, u);
    case Unsubscribe(t, v) => UnsubPeople(st, t, v, u);
    case _ => OtherPeople(st, e, u);
  }

  lemma OtherPeople(st: HubS, e: Step, u: User)
    requires Defined(st, e) && u in st.people
    requires e.Arrival? || e.Report? || e.Subscribe? || e.Publish? || e.Deliver? || e.Cry? || e.Tell? || e.Beat?
    ensures u in Take(st, e).people && Take(st, e).people[u].(appClients := []) == PersonAfter(st, e, u)
  {
  }

  lemma LeavePeople(st: HubS, c: Client, u: User)
    requires Closed(st) && c in st.clients && u in st.people
    ensures u in Disconnect(st, c).people
    ensures Disconnect(st, c).people[u].(appClients := []) == st.people[u].(appClients := [])
  {
  }

  lemma DropPeople(st: HubS, t: string, v: User, u: User)
    requires v in st.people && u in st.people
    ensures u in UnsubTopic(st, t, v).people
    ensures var p := st.people[u];
            UnsubTopic(st, t, v).people[u] == if u == v then p.(subTopics := p.subTopics - {t}) else p
  {
    assert t !in st.people[v].subTopics ==> st.people[v].subTopics - {t} == st.people[v].subTopics;
  }

  lemma DropAllPeople(st: HubS, v: User, u: User)
    requires v in st.people && u in st.people
    ensures u in UnsubAll(st, v).people
    ensures var p := st.people[u]; UnsubAll(st, v).people[u] == if u == v then p.(subTopics := {}) else p
  {
    assert st.people[v].subTopics - st.people[v].subTopics == {};
  }

  lemma UnsubPeople(st: HubS, t: string, v: User, u: User)
    requires v in st.people && u in st.people
    ensures u in Unsub(st, t, v).people
    ensures var p := st.people[u];
            Unsub(st, t, v).people[u] == if u == v && t in st.topics then p.(subTopics := p.subTopics - {t}) else p
  {
    DropPeople(RemoveSubUser(st, t, st.people[v].suid), t, v, u);
  }

  /** Only the guard sets the two counts. */
  lemma CountsStay(st: HubS, e: Step)
    requires Defined(st, e) && !e.Guard?
    ensures Take(st, e).loginCount == st.loginCount && Take(st, e).guestCount == st.guestCount
  {
    match e
    case Drop(t, u) => SameUnsubTopic(st, t, u);
    case _ =>
  }

  // ----- the guard, user by user and topic by topic

  /** The user is removed by a guard that has ranged over `order`. */
  ghost predicate Gone(st: HubS, order: seq<string>, now: int, s: string)
    requires Closed(st)
  {
    s in order && s in st.users && Idle(st, s, now)
  }

  /** The topics of the user, when the guard has ranged over `order`. */
  ghost function TopicsLeft(st: HubS, order: seq<string>, now: int, u: User): set<string>
    requires Closed(st) && u in st.people
  {
    if Registered(st, u) && Gone(st, order, now, st.people[u].suid) then {} else st.people[u].subTopics
  }

  lemma VisitTopics(st: HubS, s: string, now: int, u: User)
    requires Closed(st) && u in st.people
    ensures Visit(st, s, now).people[u].subTopics ==
            if s in st.users && st.users[s] == u && Idle(st, s, now) then {} else st.people[u].subTopics
  {
  }

  lemma {:induction false} VisitAllTopics(st: HubS, order: seq<string>, now: int, u: User)
    requires Roster(st) && u in st.people
    ensures VisitAll(st, order, now).people[u].subTopics == TopicsLeft(st, order, now, u)
  {
    if order == [] {
    } else {
      var n := |order| - 1;
      var r := VisitAll(st, order[..n], now);
      VisitAllTopics(st, order[..n], now, u);
      VisitTopics(r, order[n], now, u);
      VisitAllKeeps(st, order[..n], now);
      assert order == order[..n] + [order[n]];
      TopicsLeftMore(st, r, order[..n], order[n], now, u);
    }
  }

  lemma TopicsLeftMore(st: HubS, r: HubS, before: seq<string>, s: string, now: int, u: User)
    requires Roster(st) && u in st.people && Closed(r) && Spares(st, r) && r.users == Surviving(st, before, now)
    ensures TopicsLeft(st, before + [s], now, u) ==
            if s in r.users && r.users[s] == u && Idle(r, s, now) then {} else TopicsLeft(st, before, now, u)
  {
  }

  lemma SweepPeople(st: HubS, order: seq<string>, now: int, u: User)
    requires Roster(st) && Ranges(order, st.users.Keys) && u in st.people
    ensures u in Sweep(st, order, now).people
    ensures var p := st.people[u]; var idle := Registered(st, u) && Idle(st, p.suid, now);
            Sweep(st, order, now).people[u].(appClients := []) ==
            p.(appClients := [], subTopics := if idle then {} else p.subTopics)
  {
    VisitAllTopics(st, order, now, u);
    var r := VisitAll(st, order, now);
    assert Sweep(st, order, now).people == r.people && Spares(st, r);
  }

  /** The names that a topic lists. */
  function NamesOf(st: HubS, t: string): set<string> {
    if t in st.topics then st.topics[t] else {}
  }

  /** The names that a topic lists after a step. */
  ghost function NamesAfter(st: HubS, e: Step, t: string): set<string>
    requires Defined(st, e)
  {
    match e
    case Subscribe(x, v) => if x == t then NamesOf(st, t) + {st.people[v].suid} else NamesOf(st, t)
    case Unsubscribe(x, v) => if x == t then NamesOf(st, t) - {st.people[v].suid} else NamesOf(st, t)
    case Drop(x, v) =>
      if x == t && t in st.people[v].subTopics then NamesOf(st, t) - {st.people[v].suid} else NamesOf(st, t)
    case DropAll(v) => if t in st.people[v].subTopics then NamesOf(st, t) - {st.people[v].suid} else NamesOf(st, t)
    case Guard(_, now) =>
      set s | s in NamesOf(st, t) && !(s in st.users && Idle(st, s, now) && t in st.people[st.users[s]].subTopics)
    case _ => NamesOf(st, t)
  }

  /** Only these steps change the names a topic lists. */
  lemma NamesChange(st: HubS, e: Step, t: string)
    requires Roster(st) && Defined(st, e)
    ensures NamesOf(Take(st, e), t) == NamesAfter(st, e, t)
  {
    match e
    case Leave(c) => LeaveNames(st.(pending := st.pending - multiset{c}), c, t);
    case Login(uid, appId, c, nu) => LoginNames(st, uid, appId, c, nu, t);
    case Guard(order, now) => SweepNames(st, order, now, t);
    case _ =>
      if e.Subscribe? || e.Unsubscribe? || e.Drop? || e.DropAll? {
        SubscriptionNames(st, e, t);
      } else {
        OtherNames(st, e, t);
      }
  }

  lemma LeaveNames(st: HubS, c: Client, t: string)
    requires Closed(st) && c in st.clients
    ensures NamesOf(Disconnect(st, c), t) == NamesOf(st, t)
  {
  }

  lemma LoginNames(st: HubS, uid: string, appId: string, c: Client, nu: User, t: string)
    requires Closed(st) && c in st.clients && (uid in st.users || nu !in st.people)
    ensures NamesOf(UserLogin(st, uid, appId, c, nu), t) == NamesOf(st, t)
  {
    LoginTopics(WithUser(st, uid, nu), UserOf(st, uid, nu), appId, c);
    assert UserLogin(st, uid, appId, c, nu).topics == InitTopic(st, "login").topics;
  }

  lemma SubscriptionNames(st: HubS, e: Step, t: string)
    requires Defined(st, e) && (e.Subscribe? || e.Unsubscribe? || e.Drop? || e.DropAll?)
    ensures NamesOf(Take(st, e), t) == NamesAfter(st, e, t)
  {
  }

  lemma OtherNames(st: HubS, e: Step, t: string)
    requires Defined(st, e) && !e.Leave? && !e.Login? && !e.Guard?
    requires !e.Subscribe? && !e.Unsubscribe? && !e.Drop? && !e.DropAll?
    ensures NamesOf(Take(st, e), t) == NamesOf(st, t)
  {
  }

  /** The names on the topic that are left when the guard has ranged over `order`. */
  ghost function NamesLeft(st: HubS, order: seq<string>, now: int, t: string): set<string>
    requires Closed(st)
  {
    set s | s in NamesOf(st, t) && !(Gone(st, order, now, s) && t in st.people[st.users[s]].subTopics)
  }

  lemma VisitNames(st: HubS, s: string, now: int, t: string)
    requires Roster(st)
    ensures NamesOf(Visit(st, s, now), t) ==
            if s in st.users && Idle(st, s, now) && t in st.people[st.users[s]].subTopics then NamesOf(st, t) - {s}
            else NamesOf(st, t)
  {
  }

  lemma {:induction false} VisitAllNames(st: HubS, order: seq<string>, now: int, t: string)
    requires Roster(st)
    ensures NamesOf(VisitAll(st, order, now), t) == NamesLeft(st, order, now, t)
  {
    if order == [] {
    } else {
      var n := |order| - 1;
      var r := VisitAll(st, order[..n], now);
      VisitAllNames(st, order[..n], now, t);
      VisitAllKeeps(st, order[..n], now);
      VisitNames(r, order[n], now, t);
      if order[n] in r.users {
        VisitAllTopics(st, order[..n], now, r.users[order[n]]);
      }
      assert order == order[..n] + [order[n]];
      NamesLeftMore(st, r, order[..n], order[n], now, t);
    }
  }

  lemma NamesLeftMore(st: HubS, r: HubS, before: seq<string>, s: string, now: int, t: string)
    requires Roster(st) && Closed(r) && Spares(st, r) && r.users == Surviving(st, before, now)
    requires NamesOf(r, t) == NamesLeft(st, before, now, t)
    requires s in r.users ==> r.people[r.users[s]].subTopics == TopicsLeft(st, before, now, r.users[s])
    ensures NamesLeft(st, before + [s], now, t) ==
            if s in r.users && Idle(r, s, now) && t in r.people[r.users[s]].subTopics then NamesOf(r, t) - {s}
            else NamesOf(r, t)
  {
  }

  lemma PubNames(st: HubS, x: string, t: string)
    ensures NamesOf(Pub(st, x), t) == NamesOf(st, t)
  {
  }

  lemma AllGone(st: HubS, order: seq<string>, now: int, t: string)
    requires Closed(st) && Ranges(order, st.users.Keys)
    ensures NamesLeft(st, order, now, t) == NamesAfter(st, Guard(order, now), t)
  {
    assert forall s :: s in st.users ==> s in order;
  }

  lemma SweepNames(st: HubS, order: seq<string>, now: int, t: string)
    requires Roster(st) && Ranges(order, st.users.Keys)
    ensures NamesOf(Sweep(st, order, now), t) == NamesAfter(st, Guard(order, now), t)
  {
    VisitAllNames(st, order, now, t);
    AllGone(st, order, now, t);
    var r := VisitAll(st, order, now).(loginCount := CountOnline(st, order), guestCount := |st.guests|);
    PubNames(r, "userCount", t);
    PubNames(Pub(r, "userCount"), "guestsCount", t);
  }
}
