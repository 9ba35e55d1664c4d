/** Subscriptions are kept twice, by the user and by the topic: when the two sides agree. And the guard. */
module HubTopics {
  import opened HubState
  import opened HubRoster

  /** The registered user of this name has the topic in its `SubTopics`. */
  ghost predicate Holds(st: HubS, s: string, t: string) {
    s in st.users && st.users[s] in st.people && t in st.people[st.users[s]].subTopics
  }

  /** The topic has this name in its `SubUsers`. */
  ghost predicate Lists(st: HubS, s: string, t: string) {
    t in st.topics && s in st.topics[t]
  }

  /** The two sides agree; in particular no topic lists a name that is not registered. */
  ghost predicate Mirrored(st: HubS) {
    forall s, t {:trigger Holds(st, s, t)} {:trigger Lists(st, s, t)} :: Holds(st, s, t) <==> Lists(st, s, t)
  }

  /** A step that leaves both sides as they are, for all it matters. */
  lemma SameSides(st: HubS, r: HubS)
    requires Mirrored(st)
    requires forall s, t {:trigger Holds(r, s, t)} :: Holds(r, s, t) <==> Holds(st, s, t)
    requires forall s, t {:trigger Lists(r, s, t)} :: Lists(r, s, t) <==> Lists(st, s, t)
    ensures Mirrored(r)
  {
    forall s, t ensures Holds(r, s, t) <==> Lists(r, s, t) {
      assert Holds(st, s, t) <==> Lists(st, s, t);
    }
  }

  lemma PubKeepsMirror(st: HubS, t: string)
    requires Mirrored(st)
    ensures Mirrored(Pub(st, t))
  {
    SameSides(st, Pub(st, t));
  }

  lemma ConnectKeepsMirror(st: HubS, c: Client)
    requires Mirrored(st)
    ensures Mirrored(Connect(st, c))
  {
    SameSides(st, Connect(st, c));
  }

  lemma LogoutKeepsMirror(st: HubS, u: User, appId: string, c: Client)
    requires Mirrored(st) && Closed(st) && u in st.people && c in st.clients
    ensures Mirrored(AppLogout(st, u, appId, c))
  {
    SameSides(st, AppLogout(st, u, appId, c));
  }

  lemma DisconnectKeepsMirror(st: HubS, c: Client)
    requires Mirrored(st) && Closed(st) && c in st.clients
    ensures Mirrored(Disconnect(st, c))
  {
    var s := Pub(st, "disconnect");
    PubKeepsMirror(st, "disconnect");
    if st.clients[c].user != null {
      LogoutKeepsMirror(s, st.clients[c].user, st.clients[c].appId, c);
    } else {
      SameSides(s, Disconnect(st, c));
    }
  }

  lemma LoginOnTopics(st: HubS, uid: string, appId: string, c: Client, nu: User, s: string, t: string)
    requires Closed(st) && c in st.clients && (uid in st.users || nu !in st.people)
    ensures Lists(UserLogin(st, uid, appId, c, nu), s, t) <==> Lists(st, s, t)
  {
    var u := UserOf(st, uid, nu);
    LoginTopics(WithUser(st, uid, nu), u, appId, c);
    assert UserLogin(st, uid, appId, c, nu).topics == InitTopic(st, "login").topics;
  }

  lemma LoginTopics(st: HubS, u: User, appId: string, c: Client)
    requires Closed(st) && u in st.people && c in st.clients
    ensures AppLogin(st, u, appId, c).topics == InitTopic(st, "login").topics
  {
  }

  lemma LoginHolds(st: HubS, uid: string, appId: string, c: Client, nu: User, s: string, t: string)
    requires Closed(st) && c in st.clients && (uid in st.users || nu !in st.people)
    ensures Holds(UserLogin(st, uid, appId, c, nu), s, t) <==> Holds(st, s, t)
  {
    var u := UserOf(st, uid, nu);
    var w := WithUser(st, uid, nu);
    LoginSubTopics(w, u, appId, c);
    HoldsLater(st, uid, u, w, AppLogin(w, u, appId, c), UserLogin(st, uid, appId, c, nu), s, t);
  }

  lemma HoldsLater(st: HubS, uid: string, u: User, w: HubS, a: HubS, r: HubS, s: string, t: string)
    requires r.users == st.users[uid := u] && r.people == a.people && a.people.Keys == w.people.Keys
    requires forall v :: v in w.people ==> a.people[v].subTopics == w.people[v].subTopics
    requires forall x :: x in st.users ==> st.users[x] in st.people
    requires if uid in st.users then u == st.users[uid] && w == st
             else u !in st.people && w.people == st.people[u := UserS(uid, [], {}, 0)]
    ensures Holds(r, s, t) <==> Holds(st, s, t)
  {
  }

  lemma LoginSubTopics(st: HubS, u: User, appId: string, c: Client)
    requires Closed(st) && u in st.people && c in st.clients
    ensures var r := AppLogin(st, u, appId, c);
            r.people.Keys == st.people.Keys &&
            forall v :: v in st.people ==> r.people[v].subTopics == st.people[v].subTopics
  {
  }

  /** A login changes no subscription. */
  lemma LoginKeepsMirror(st: HubS, uid: string, appId: string, c: Client, nu: User)
    requires Closed(st) && c in st.clients && (uid in st.users || nu !in st.people)
    ensures var r := UserLogin(st, uid, appId, c, nu);
            forall s, t :: (Holds(r, s, t) <==> Holds(st, s, t)) && (Lists(r, s, t) <==> Lists(st, s, t))
    ensures Mirrored(UserLogin(st, uid, appId, c, nu)) <==> Mirrored(st)
  {
    var r := UserLogin(st, uid, appId, c, nu);
    forall s, t ensures (Holds(r, s, t) <==> Holds(st, s, t)) && (Lists(r, s, t) <==> Lists(st, s, t)) {
      LoginHolds(st, uid, appId, c, nu, s, t);
      LoginOnTopics(st, uid, appId, c, nu, s, t);
    }
    if Mirrored(st) {
      SameSides(st, r);
    }
    if Mirrored(r) {
      SameSides(r, st);
    }
  }

  // ----- subscribing

  /** A stale user object, one that is not registered under its name, breaks the mirror by subscribing, unless the
    * registered user of that name has the topic already. */
  lemma SubKeepsMirrorIff(st: HubS, t: string, u: User)
    requires Roster(st) && Mirrored(st) && u in st.people
    ensures Mirrored(Sub(st, t, u)) <==> Registered(st, u) || Holds(st, st.people[u].suid, t)
  {
    var r := Sub(st, t, u);
    var suid := st.people[u].suid;
    forall s, x ensures Lists(r, s, x) <==> Lists(st, s, x) || (s == suid && x == t) {
    }
    forall s, x ensures Holds(r, s, x) <==> Holds(st, s, x) || (Registered(st, u) && s == suid && x == t) {
    }
    forall s, x | Registered(st, u) || Holds(st, suid, t) ensures Holds(r, s, x) <==> Lists(r, s, x) {
      assert Holds(st, s, x) <==> Lists(st, s, x);
    }
    assert Lists(r, suid, t);
  }

  /** Unsubscribing a stale user object takes the topic's side only. */
  lemma UnsubKeepsMirrorIff(st: HubS, t: string, u: User)
    requires Roster(st) && Mirrored(st) && u in st.people
    ensures Mirrored(Unsub(st, t, u)) <==> Registered(st, u) || !Holds(st, st.people[u].suid, t)
  {
    var r := Unsub(st, t, u);
    var suid := st.people[u].suid;
    assert Holds(st, suid, t) <==> Lists(st, suid, t);
    forall s, x ensures Lists(r, s, x) <==> Lists(st, s, x) && !(s == suid && x == t) {
    }
    forall s, x ensures Holds(r, s, x) <==> Holds(st, s, x) && !(Registered(st, u) && s == suid && x == t) {
    }
    forall s, x | Registered(st, u) || !Holds(st, suid, t) ensures Holds(r, s, x) <==> Lists(r, s, x) {
      assert Holds(st, s, x) <==> Lists(st, s, x);
    }
    assert !Lists(r, suid, t);
  }

  /** `User.UnsubTopic` does what it should, unless it is called on a stale user object that has the topic while the
    * registered user of the name has it too. */
  lemma UnsubTopicKeepsMirrorIff(st: HubS, t: string, u: User)
    requires Roster(st) && Mirrored(st) && u in st.people
    ensures Mirrored(UnsubTopic(st, t, u)) <==>
            Registered(st, u) || t !in st.people[u].subTopics || !Holds(st, st.people[u].suid, t)
  {
    UnsubSomeKeepsMirrorIff(st, u, st.people[u].subTopics * {t});
    SameUnsubTopic(st, t, u);
  }

  /** And so does `UnsubAllTopics`, topic by topic. */
  lemma UnsubAllKeepsMirrorIff(st: HubS, u: User)
    requires Roster(st) && Mirrored(st) && u in st.people
    ensures Mirrored(UnsubAll(st, u)) <==>
            Registered(st, u) || forall t :: t in st.people[u].subTopics ==> !Holds(st, st.people[u].suid, t)
  {
    UnsubSomeKeepsMirrorIff(st, u, st.people[u].subTopics);
  }

  lemma SameUnsubTopic(st: HubS, t: string, u: User)
    requires u in st.people
    ensures UnsubTopic(st, t, u) == UnsubSome(st, u, st.people[u].subTopics * {t})
  {
    var p := st.people[u];
    var a, b := UnsubTopic(st, t, u), UnsubSome(st, u, p.subTopics * {t});
    assert p.subTopics - p.subTopics * {t} == p.subTopics - {t};
    assert t !in p.subTopics ==> p.subTopics - {t} == p.subTopics;
    assert a.topics == b.topics && a.people == b.people;
  }

  lemma UnsubSomeKeepsMirrorIff(st: HubS, u: User, ts: set<string>)
    requires Roster(st) && Mirrored(st) && u in st.people
    ensures Mirrored(UnsubSome(st, u, ts)) <==>
            Registered(st, u) || forall t :: t in ts ==> !Holds(st, st.people[u].suid, t)
  {
    var r := UnsubSome(st, u, ts);
    var suid := st.people[u].suid;
    forall s, x ensures Lists(r, s, x) <==> Lists(st, s, x) && !(s == suid && x in ts) {
    }
    forall s, x ensures Holds(r, s, x) <==> Holds(st, s, x) && !(Registered(st, u) && s == suid && x in ts) {
    }
    if Registered(st, u) || forall t :: t in ts ==> !Holds(st, suid, t) {
      forall s, x ensures Holds(r, s, x) <==> Lists(r, s, x) {
        assert Holds(st, s, x) <==> Lists(st, s, x);
      }
    } else {
      var t :| t in ts && Holds(st, suid, t);
      assert Holds(r, suid, t) && !Lists(r, suid, t);
    }
  }

  /** After subscribing and then unsubscribing, a registered user does not have the topic, on either side, and nothing
    * else has changed; so the second undoes the first exactly if the user did not have it before. */
  lemma UnsubUndoesSubIff(st: HubS, t: string, u: User)
    requires Roster(st) && Mirrored(st) && Registered(st, u)
    ensures var r := Unsub(Sub(st, t, u), t, u); var suid := st.people[u].suid;
            && (r.people == st.people <==> !Holds(st, suid, t))
            && (forall s, x :: Holds(r, s, x) <==> Holds(st, s, x) && !(s == suid && x == t))
            && (forall s, x :: Lists(r, s, x) <==> Lists(st, s, x) && !(s == suid && x == t))
  {
    var p := st.people[u];
    assert Holds(st, p.suid, t) <==> Lists(st, p.suid, t);
    assert t !in p.subTopics ==> p.subTopics + {t} - {t} == p.subTopics;
    assert Unsub(Sub(st, t, u), t, u).people[u] == p.(subTopics := p.subTopics + {t} - {t});
  }

  lemma SubUnsubKeepRoster(st: HubS, t: string, u: User)
    requires Roster(st) && u in st.people
    ensures Roster(Sub(st, t, u)) && Roster(Unsub(st, t, u))
  {
    SameRoster(st, Sub(st, t, u));
    SameRoster(st, Unsub(st, t, u));
  }

  lemma UnsubSomeKeepsRoster(st: HubS, u: User, ts: set<string>)
    requires Roster(st) && u in st.people
    ensures Roster(UnsubSome(st, u, ts))
  {
    SameRoster(st, UnsubSome(st, u, ts));
  }

  /** A step that touches topics and subscriptions only. */
  lemma SameRoster(st: HubS, r: HubS)
    requires Roster(st) && r.guests == st.guests && r.users == st.users && r.clients == st.clients
    requires r.people.Keys == st.people.Keys
    requires forall u :: u in st.people ==>
               r.people[u].appClients == st.people[u].appClients && r.people[u].suid == st.people[u].suid
    ensures Roster(r)
  {
    forall u | u in r.people ensures RosterOf(r, u) {
      assert RosterOf(st, u);
    }
  }

  // ----- the guard

  /** No client, and no heartbeat for five minutes. */
  ghost predicate Idle(st: HubS, s: string, now: int)
    requires Closed(st) && s in st.users
  {
    st.people[st.users[s]].appClients == [] && now >= st.people[st.users[s]].lastHeartbeat + 300
  }

  /** A visit keeps each invariant, and takes out the user exactly when it is stale. */
  lemma VisitKeeps(st: HubS, s: string, now: int)
    requires Roster(st)
    ensures Roster(Visit(st, s, now)) && (Mirrored(st) ==> Mirrored(Visit(st, s, now)))
    ensures Visit(st, s, now).users == if s in st.users && Idle(st, s, now) then st.users - {s} else st.users
  {
    if s in st.users && Stale(st, s, now) {
      var u := st.users[s];
      var a := UnsubAll(st, u);
      var r := a.(users := a.users - {s});
      ExpiryKeepsRoster(st, s);
      PubKeepsRoster(r, "cleanupUser");
      if Mirrored(st) {
        ExpiryKeepsMirror(st, s);
        PubKeepsMirror(r, "cleanupUser");
      }
    }
  }

  /** A user without clients is taken out. */
  lemma ExpiryKeepsRoster(st: HubS, s: string)
    requires Roster(st) && s in st.users && st.people[st.users[s]].appClients == []
    ensures var a := UnsubAll(st, st.users[s]); Roster(a.(users := a.users - {s}))
  {
    var a := UnsubAll(st, st.users[s]);
    var r := a.(users := a.users - {s});
    forall v | v in r.people ensures RosterOf(r, v) {
      assert RosterOf(st, v);
    }
  }

  lemma ExpiryKeepsMirror(st: HubS, s: string)
    requires Roster(st) && Mirrored(st) && s in st.users
    ensures var a := UnsubAll(st, st.users[s]); Mirrored(a.(users := a.users - {s}))
  {
    var a := UnsubAll(st, st.users[s]);
    var r := a.(users := a.users - {s});
    forall n, t ensures Holds(r, n, t) <==> Lists(r, n, t) {
      assert Holds(st, n, t) <==> Lists(st, n, t);
    }
  }

  /** The users left after the guard has ranged over `order`. */
  ghost function Surviving(st: HubS, order: seq<string>, now: int): map<string, User>
    requires Closed(st)
  {
    map s | s in st.users && !(s in order && Stale(st, s, now)) :: st.users[s]
  }

  lemma SurvivingStep(st: HubS, r: HubS, before: seq<string>, s: string, now: int)
    requires Closed(st) && Closed(r) && Spares(st, r) && r.users == Surviving(st, before, now)
    ensures (if s in r.users && Stale(r, s, now) then r.users - {s} else r.users) == Surviving(st, before + [s], now)
  {
    assert forall x :: x in r.users ==> Stale(r, x, now) == Stale(st, x, now);
  }

  lemma {:induction false} VisitAllKeeps(st: HubS, order: seq<string>, now: int)
    requires Roster(st)
    ensures var r := VisitAll(st, order, now);
            Roster(r) && (Mirrored(st) ==> Mirrored(r)) && r.users == Surviving(st, order, now)
  {
    if order == [] {
      assert Surviving(st, order, now) == st.users;
    } else {
      var n := |order| - 1;
      var r := VisitAll(st, order[..n], now);
      VisitAllKeeps(st, order[..n], now);
      VisitKeeps(r, order[n], now);
      SurvivingStep(st, r, order[..n], order[n], now);
      assert order == order[..n] + [order[n]];
    }
  }

  lemma {:induction false} CountsOnline(st: HubS, order: seq<string>)
    requires Closed(st) && Ranges(order, st.users.Keys)
    ensures CountOnline(st, order) == |Online(st)|
  {
    CountsSome(st, order);
    assert (set s | s in order && s in Online(st)) == Online(st);
  }

  lemma OnlineMore(st: HubS, order: seq<string>, s: string)
    requires Closed(st) && s !in order
    ensures var before := set x | x in order && x in Online(st);
            var after := set x | x in order + [s] && x in Online(st);
            |after| == |before| + if s in Online(st) then 1 else 0
  {
    var before := set x | x in order && x in Online(st);
    var after := set x | x in order + [s] && x in Online(st);
    assert after == if s in Online(st) then before + {s} else before;
    assert s !in before;
  }

  lemma {:induction false} CountsSome(st: HubS, order: seq<string>)
    requires Closed(st) && (forall s :: s in order ==> s in st.users)
    requires forall i, j :: 0 <= i < j < |order| ==> order[i] != order[j]
    ensures CountOnline(st, order) == |set s | s in order && s in Online(st)|
    decreases |order|
  {
    if order == [] {
    } else {
      var n := |order| - 1;
      CountsSome(st, order[..n]);
      assert order == order[..n] + [order[n]] && order[n] !in order[..n];
      OnlineMore(st, order[..n], order[n]);
    }
  }

  /** Main result for the guard, in whatever order it ranges over the users: exactly the users with no client and no
    * heartbeat for five minutes are taken out, and the login count is the number of users that have a client. */
  lemma SweepResult(st: HubS, order: seq<string>, now: int)
    requires Roster(st) && Ranges(order, st.users.Keys)
    ensures var r := Sweep(st, order, now);
            && Roster(r)
            && (forall s :: s in r.users <==> s in st.users && !Idle(st, s, now))
            && (forall s :: s in r.users ==> r.users[s] == st.users[s])
            && r.loginCount == |Online(r)| && Online(r) == Online(st) && r.guestCount == |r.guests|
  {
    VisitAllKeeps(st, order, now);
    CountsOnline(st, order);
    var a := VisitAll(st, order, now);
    var b := a.(loginCount := CountOnline(st, order), guestCount := |st.guests|);
    SameRoster(a, b);
    PubKeepsRoster(b, "userCount");
    PubKeepsRoster(Pub(b, "userCount"), "guestsCount");
    OnlineSurvive(st, order, now);
  }

  lemma OnlineSurvive(st: HubS, order: seq<string>, now: int)
    requires Roster(st)
    ensures Online(VisitAll(st, order, now)) == Online(st)
  {
    VisitAllKeeps(st, order, now);
  }

  /** And if the two sides of the subscriptions agree, they still do, and no topic lists a user that was taken out. */
  lemma SweepKeepsMirror(st: HubS, order: seq<string>, now: int)
    requires Roster(st) && Mirrored(st) && Ranges(order, st.users.Keys)
    ensures var r := Sweep(st, order, now);
            Mirrored(r) && forall s, t :: Lists(r, s, t) ==> s in st.users && !Idle(st, s, now)
  {
    VisitAllKeeps(st, order, now);
    var a := VisitAll(st, order, now);
    var b := a.(loginCount := CountOnline(st, order), guestCount := |st.guests|);
    SameSides(a, b);
    PubKeepsMirror(b, "userCount");
    PubKeepsMirror(Pub(b, "userCount"), "guestsCount");
    var r := Sweep(st, order, now);
    forall s, t | Lists(r, s, t) ensures s in r.users {
      assert Holds(r, s, t);
    }
  }
}
