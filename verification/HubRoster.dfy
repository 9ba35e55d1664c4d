/** Who is listed where: the invariant of the guest list and of the users' client lists. */
module HubRoster {
  import opened HubState

  ghost predicate Registered(st: HubS, u: User) {
    u in st.people && st.people[u].suid in st.users && st.users[st.people[u].suid] == u
  }

  ghost predicate Distinct(cs: seq<Client>) {
    forall i, j :: 0 <= i < j < |cs| ==> cs[i] != cs[j]
  }

  predicate SameConn(c: Client, d: Client) { c.conn == d.conn }

  ghost predicate DistinctConns(cs: set<Client>) {
    forall c, d {:trigger SameConn(c, d)} :: c in cs && d in cs && SameConn(c, d) ==> c == d
  }

  /** All of them point back to the user, and no two share an app. */
  ghost predicate Owned(m: map<Client, ClientS>, u: User, cs: seq<Client>) {
    && (forall c :: c in cs ==> c in m && m[c].user == u)
    && (forall i, j :: 0 <= i < j < |cs| ==> cs[i] != cs[j] && m[cs[i]].appId != m[cs[j]].appId)
  }

  ghost predicate RosterOf(st: HubS, u: User) {
    u in st.people && Owned(st.clients, u, st.people[u].appClients) &&
    (st.people[u].appClients != [] ==> Registered(st, u))
  }

  /** Guests are distinct and have no user; a user's clients are its own; only registered users have any. */
  ghost predicate Roster(st: HubS) {
    && Closed(st)
    && Distinct(st.guests) && (forall c :: c in st.guests ==> st.clients[c].user == null)
    && (forall s :: s in st.users ==> st.people[st.users[s]].suid == s)
    && (forall u {:trigger RosterOf(st, u)} :: u in st.people ==> RosterOf(st, u))
    && DistinctConns(st.clients.Keys) && (forall c :: c in st.clients ==> st.clients[c].conn == c.conn)
  }

  ghost predicate ListedBy(st: HubS, u: User, c: Client) {
    u in st.people && c in st.people[u].appClients
  }

  ghost predicate ListedByAny(st: HubS, c: Client) {
    exists u :: u in st.people && ListedBy(st, u, c)
  }

  ghost predicate Listed(st: HubS, c: Client) {
    c in st.guests || ListedByAny(st, c)
  }

  /** No client is in two places. */
  lemma OnePlace(st: HubS, c: Client, u: User, v: User)
    requires Roster(st) && ListedBy(st, u, c)
    ensures c !in st.guests && (ListedBy(st, v, c) ==> u == v) && Registered(st, u)
  {
    assert RosterOf(st, u);
    if ListedBy(st, v, c) {
      assert RosterOf(st, v);
    }
  }

  lemma PubKeepsRoster(st: HubS, t: string)
    ensures Roster(Pub(st, t)) <==> Roster(st)
  {
    var r := Pub(st, t);
    if Closed(st) {
      assert forall u :: u in st.people ==> (RosterOf(r, u) <==> RosterOf(st, u));
    }
  }

  // ----- Connect

  /** A connection is added to the guests; this is sound exactly when it is not a guest already and has no user. */
  lemma ConnectKeepsRosterIff(st: HubS, c: Client)
    requires Roster(st) && c in st.clients
    ensures Roster(Connect(st, c)) <==> c !in st.guests && st.clients[c].user == null
  {
    var s := st.(guests := st.guests + [c]);
    PubKeepsRoster(s, "connect");
    assert forall u :: u in st.people ==> RosterOf(s, u) == RosterOf(st, u);
    if c in st.guests {
      var i :| 0 <= i < |st.guests| && st.guests[i] == c;
      assert s.guests[i] == s.guests[|st.guests|];
    }
    assert c in s.guests;
  }

  lemma ArriveKeepsRoster(st: HubS, c: Client)
    requires Roster(st) && c !in st.clients && forall d :: d in st.clients ==> d.conn != c.conn
    ensures Roster(Arrive(st, c)) && !Listed(Arrive(st, c), c)
  {
    var r := Arrive(st, c);
    forall u | u in r.people ensures RosterOf(r, u) && c !in r.people[u].appClients {
      assert RosterOf(st, u);
    }
  }

  // ----- removing a client

  lemma WithoutIs(cs: seq<Client>, c: Client)
    requires Distinct(cs)
    ensures Distinct(Without(cs, c)) && forall d :: d in Without(cs, c) <==> d in cs && d != c
  {
    var i := IndexOf(cs, c);
    if 0 <= i {
      var left := DeleteAt(cs, i);
      assert forall d :: d in cs <==> d in cs[..i] || d == c || d in cs[i + 1..];
      assert forall k :: 0 <= k < |left| ==> left[k] == cs[if k < i then k else k + 1];
    }
  }

  lemma RemoveGuestRoster(st: HubS, c: Client)
    requires Roster(st)
    ensures Roster(RemoveGuest(st, c)) && c !in RemoveGuest(st, c).guests
    ensures forall d :: d != c ==> (d in RemoveGuest(st, c).guests <==> d in st.guests)
  {
    var r := RemoveGuest(st, c);
    WithoutIs(st.guests, c);
    assert forall u :: u in st.people ==> RosterOf(r, u) == RosterOf(st, u);
  }

  lemma CloseRoster(st: HubS, c: Client)
    requires Roster(st) && c in st.clients
    ensures Roster(Close(st, c))
  {
    var r := Close(st, c);
    assert forall u :: u in st.people ==> RosterOf(r, u) == RosterOf(st, u);
  }

  lemma DeleteOwned(m: map<Client, ClientS>, u: User, cs: seq<Client>, i: nat)
    requires Owned(m, u, cs) && i < |cs|
    ensures Owned(m, u, DeleteAt(cs, i)) && cs[i] !in DeleteAt(cs, i)
    ensures forall d :: d != cs[i] ==> (d in DeleteAt(cs, i) <==> d in cs)
  {
    var left := DeleteAt(cs, i);
    assert forall d :: d in cs <==> d in cs[..i] || d == cs[i] || d in cs[i + 1..];
    assert forall k :: 0 <= k < |left| ==> left[k] == cs[if k < i then k else k + 1];
  }

  /** A user's list is replaced by another one it may have. */
  lemma SetClientsRoster(st: HubS, u: User, cs: seq<Client>)
    requires Roster(st) && u in st.people && Owned(st.clients, u, cs) && (cs != [] ==> Registered(st, u))
    ensures Roster(SetClients(st, u, cs))
  {
    var r := SetClients(st, u, cs);
    forall v | v in r.people ensures RosterOf(r, v) {
      assert RosterOf(st, v);
    }
  }

  /** The entry `AppLogout` finds is the client itself, if it is still listed. */
  lemma LogoutFinds(st: HubS, c: Client)
    requires Roster(st) && c in st.clients && st.clients[c].user != null
    ensures var u := st.clients[c].user; var cs := st.people[u].appClients;
            var i := ConnIndex(st.clients, cs, st.clients[c].appId, st.clients[c].conn);
            (0 <= i <==> c in cs) && (0 <= i ==> cs[i] == c)
  {
    var u := st.clients[c].user;
    var cs := st.people[u].appClients;
    assert RosterOf(st, u);
    var i := ConnIndex(st.clients, cs, st.clients[c].appId, st.clients[c].conn);
    if 0 <= i {
      assert SameConn(cs[i], c);
    }
  }

  lemma LogoutKeepsRoster(st: HubS, c: Client)
    requires Roster(st) && c in st.clients && st.clients[c].user != null
    ensures Roster(AppLogout(st, st.clients[c].user, st.clients[c].appId, c))
  {
    var u := st.clients[c].user;
    var cs := st.people[u].appClients;
    LogoutFinds(st, c);
    assert RosterOf(st, u);
    if c in cs {
      var i := ConnIndex(st.clients, cs, st.clients[c].appId, st.clients[c].conn);
      DeleteOwned(st.clients, u, cs, i);
      SetClientsRoster(st, u, DeleteAt(cs, i));
      CloseRoster(SetClients(st, u, DeleteAt(cs, i)), c);
      PubKeepsRoster(Close(SetClients(st, u, DeleteAt(cs, i)), c), "logout");
    } else {
      PubKeepsRoster(st, "logout");
    }
  }

  /** A client that has a user is listed by that user or nowhere. */
  lemma ListedByItsUser(st: HubS, c: Client, v: User)
    requires Roster(st) && ListedBy(st, v, c)
    ensures st.clients[c].user == v && c !in st.guests
  {
    assert RosterOf(st, v);
  }

  lemma DisconnectKeepsRoster(st: HubS, c: Client)
    requires Roster(st) && c in st.clients
    ensures Roster(Disconnect(st, c))
  {
    var s := Pub(st, "disconnect");
    PubKeepsRoster(st, "disconnect");
    if st.clients[c].user != null {
      LogoutKeepsRoster(s, c);
    } else {
      CloseRoster(s, c);
      RemoveGuestRoster(Close(s, c), c);
    }
  }

  /** What a logout leaves of the lists and the clients, by cases. */
  lemma LogoutByCases(st: HubS, c: Client)
    requires Roster(st) && c in st.clients && st.clients[c].user != null
    ensures var u := st.clients[c].user; var r := AppLogout(st, u, st.clients[c].appId, c);
            && r.guests == st.guests
            && (!ListedBy(st, u, c) ==> r.people == st.people && r.clients == st.clients)
            && (ListedBy(st, u, c) ==> r.clients == Close(st, c).clients && exists i: nat ::
                  && i < |st.people[u].appClients| && st.people[u].appClients[i] == c
                  && r.people == SetClients(st, u, DeleteAt(st.people[u].appClients, i)).people)
  {
    LogoutFinds(st, c);
  }

  /** The lists after a disconnect: `c` is off them, nobody else has moved. */
  lemma LogoutMovesOnly(st: HubS, c: Client, u: User, d: Client)
    requires Roster(st) && c in st.clients && st.clients[c].user != null
    ensures var r := AppLogout(st, st.clients[c].user, st.clients[c].appId, c);
            !ListedBy(r, u, c) && (d != c ==> (ListedBy(r, u, d) <==> ListedBy(st, u, d)))
  {
    LogoutByCases(st, c);
    if ListedBy(st, u, c) {
      ListedByItsUser(st, c, u);
      var cs := st.people[u].appClients;
      var r := AppLogout(st, u, st.clients[c].appId, c);
      var i: nat :| i < |cs| && cs[i] == c && r.people == SetClients(st, u, DeleteAt(cs, i)).people;
      assert RosterOf(st, u);
      DeleteOwned(st.clients, u, cs, i);
    }
  }

  lemma DisconnectMovesOnly(st: HubS, c: Client, u: User, d: Client)
    requires Roster(st) && c in st.clients
    ensures var r := Disconnect(st, c);
            !ListedBy(r, u, c) && (d != c ==> (ListedBy(r, u, d) <==> ListedBy(st, u, d)))
  {
    if st.clients[c].user != null {
      PubKeepsRoster(st, "disconnect");
      LogoutMovesOnly(Pub(st, "disconnect"), c, u, d);
    } else if ListedBy(st, u, c) {
      ListedByItsUser(st, c, u);
    }
  }

  lemma DisconnectGuests(st: HubS, c: Client, d: Client)
    requires Roster(st) && c in st.clients
    ensures var r := Disconnect(st, c); c !in r.guests && (d != c ==> (d in r.guests <==> d in st.guests))
  {
    if st.clients[c].user != null {
      PubKeepsRoster(st, "disconnect");
      LogoutByCases(Pub(st, "disconnect"), c);
    } else {
      RemoveGuestRoster(st, c);
    }
  }

  /** A disconnect closes the client exactly when it had no user or was still listed by it, and does nothing to any
    * client otherwise. So a connection that a login has replaced is not closed by the disconnect queued for it. */
  lemma DisconnectCloses(st: HubS, c: Client)
    requires Roster(st) && c in st.clients
    ensures var u := st.clients[c].user;
            Disconnect(st, c).clients == if u == null || ListedBy(st, u, c) then Close(st, c).clients else st.clients
  {
    if st.clients[c].user != null {
      PubKeepsRoster(st, "disconnect");
      LogoutByCases(Pub(st, "disconnect"), c);
    }
  }

  /** Main result for Disconnect: the invariant is kept, the client is listed nowhere afterwards, and every other
    * client is listed exactly where it was; so a late or repeated disconnect of a connection never takes out the one
    * that has replaced it. */
  lemma DisconnectRoster(st: HubS, c: Client)
    requires Roster(st) && c in st.clients
    ensures Roster(Disconnect(st, c)) && !Listed(Disconnect(st, c), c)
    ensures forall d :: d != c ==> (d in Disconnect(st, c).guests <==> d in st.guests)
    ensures forall d, u :: d != c ==> (ListedBy(Disconnect(st, c), u, d) <==> ListedBy(st, u, d))
  {
    var r := Disconnect(st, c);
    DisconnectKeepsRoster(st, c);
    forall d ensures c !in r.guests && (d != c ==> (d in r.guests <==> d in st.guests)) {
      DisconnectGuests(st, c, d);
    }
    forall d, u ensures !ListedBy(r, u, c) && (d != c ==> (ListedBy(r, u, d) <==> ListedBy(st, u, d))) {
      DisconnectMovesOnly(st, c, u, d);
    }
  }

  // ----- Login

  /** The login the invariant allows: of a client that is listed by no user, or by this one under this app. */
  ghost predicate LoginFits(st: HubS, uid: string, appId: string, c: Client)
    requires Closed(st) && c in st.clients
  {
    ListedByAny(st, c) ==> uid in st.users && ListedBy(st, st.users[uid], c) && st.clients[c].appId == appId
  }

  function LoggedIn(m: map<Client, ClientS>, u: User, appId: string, c: Client): map<Client, ClientS>
    requires c in m
  {
    m[c := m[c].(user := u, appId := appId, isLogin := true)]
  }

  /** A list without `c` is not concerned by its login. */
  lemma OwnedElsewhere(m: map<Client, ClientS>, v: User, cs: seq<Client>, u: User, appId: string, c: Client)
    requires c in m && c !in cs && Owned(m, v, cs)
    ensures Owned(LoggedIn(m, u, appId, c), v, cs)
  {
  }

  /** A client of a new app joins a list it is not on. */
  lemma OwnedWithOneMore(m: map<Client, ClientS>, u: User, cs: seq<Client>, appId: string, c: Client)
    requires c in m && c !in cs && Owned(m, u, cs) && forall d :: d in cs ==> m[d].appId != appId
    ensures Owned(LoggedIn(m, u, appId, c), u, cs + [c])
  {
    OwnedElsewhere(m, u, cs, u, appId, c);
  }

  /** The same client logging in again under its app. */
  lemma OwnedAgain(m: map<Client, ClientS>, u: User, cs: seq<Client>, appId: string, c: Client)
    requires c in m && c in cs && Owned(m, u, cs) && m[c].appId == appId
    ensures LoginList(m, cs, appId, c) == cs && Owned(LoggedIn(m, u, appId, c), u, cs)
  {
    var i := AppIndex(m, cs, appId);
    var k :| 0 <= k < |cs| && cs[k] == c;
    assert i == k;
  }

  /** A client on a list cannot be added to it. */
  lemma TwiceIsNotOwned(m: map<Client, ClientS>, u: User, cs: seq<Client>, c: Client)
    requires c in cs
    ensures !Owned(m, u, cs + [c])
  {
    var k :| 0 <= k < |cs| && cs[k] == c;
    assert (cs + [c])[k] == (cs + [c])[|cs|];
  }

  /** What is left of the list once the other client of the app, if there is one, has given way. */
  function Kept(m: map<Client, ClientS>, cs: seq<Client>, appId: string): seq<Client>
    requires forall d :: d in cs ==> d in m
  {
    var i := AppIndex(m, cs, appId);
    if i < 0 then cs else DeleteAt(cs, i)
  }

  /** Once the first client of an app is taken out of an owned list, none of that app is left. */
  lemma NoneOfApp(m: map<Client, ClientS>, cs: seq<Client>, appId: string)
    requires forall c :: c in cs ==> c in m
    requires forall i, j :: 0 <= i < j < |cs| ==> m[cs[i]].appId != m[cs[j]].appId
    ensures forall d :: d in Kept(m, cs, appId) ==> m[d].appId != appId
  {
    var i := AppIndex(m, cs, appId);
    if 0 <= i {
      var left := DeleteAt(cs, i);
      assert forall k :: 0 <= k < |left| ==> left[k] == cs[if k < i then k else k + 1];
    }
  }

  lemma LoginListIs(m: map<Client, ClientS>, u: User, cs: seq<Client>, appId: string, c: Client)
    requires c in m && Owned(m, u, cs) && (forall d :: d in m ==> m[d].conn == d.conn) && DistinctConns(m.Keys)
    requires c !in cs || m[c].appId != appId
    ensures LoginList(m, cs, appId, c) == Kept(m, cs, appId) + [c] && Owned(m, u, Kept(m, cs, appId))
    ensures c in Kept(m, cs, appId) <==> c in cs
  {
    var i := AppIndex(m, cs, appId);
    if 0 <= i {
      assert m[cs[i]].conn == m[c].conn ==> SameConn(cs[i], c);
      DeleteOwned(m, u, cs, i);
    }
  }

  /** The new list of the user is one it may have, unless the client was already on it under another app. */
  lemma LoginListOwned(m: map<Client, ClientS>, u: User, cs: seq<Client>, appId: string, c: Client)
    requires c in m && Owned(m, u, cs) && (forall d :: d in m ==> m[d].conn == d.conn) && DistinctConns(m.Keys)
    ensures Owned(LoggedIn(m, u, appId, c), u, LoginList(m, cs, appId, c)) <==> c !in cs || m[c].appId == appId
    ensures c in LoginList(m, cs, appId, c)
  {
    if c in cs && m[c].appId == appId {
      OwnedAgain(m, u, cs, appId, c);
    } else {
      LoginListIs(m, u, cs, appId, c);
      if c in cs {
        TwiceIsNotOwned(LoggedIn(m, u, appId, c), u, Kept(m, cs, appId), c);
      } else {
        NoneOfApp(m, cs, appId);
        OwnedWithOneMore(m, u, Kept(m, cs, appId), appId, c);
      }
    }
  }

  lemma AppLoginIs(st: HubS, u: User, appId: string, c: Client)
    requires Closed(st) && u in st.people && c in st.clients
    ensures var r := AppLogin(st, u, appId, c); var cs := st.people[u].appClients;
            && r.clients == LoggedIn(st.clients, u, appId, c) && r.users == st.users && r.guests == st.guests
            && r.people == SetClients(st, u, LoginList(st.clients, cs, appId, c)).people
            && r.pending == st.pending + Replaced(st.clients, cs, appId, c)
  {
  }

  lemma LoginIs(st: HubS, uid: string, appId: string, c: Client, nu: User)
    requires Closed(st) && c in st.clients && (uid in st.users || nu !in st.people)
    ensures var u := UserOf(st, uid, nu); var s := WithUser(st, uid, nu); var r := UserLogin(st, uid, appId, c, nu);
            && Closed(s) && u in s.people && s.clients == st.clients
            && r.clients == LoggedIn(st.clients, u, appId, c)
            && r.users == st.users[uid := u]
            && r.people == SetClients(s, u, LoginList(st.clients, s.people[u].appClients, appId, c)).people
            && r.guests == RemoveGuest(st, c).guests
            && r.pending == st.pending + Replaced(st.clients, s.people[u].appClients, appId, c)
  {
    AppLoginIs(WithUser(st, uid, nu), UserOf(st, uid, nu), appId, c);
  }

  lemma UserOfFits(st: HubS, uid: string, nu: User)
    requires Roster(st) && (uid in st.users || nu !in st.people)
    ensures var u := UserOf(st, uid, nu); var s := WithUser(st, uid, nu);
            u in s.people && s.people[u].suid == uid && Owned(st.clients, u, s.people[u].appClients)
  {
    if uid in st.users {
      assert RosterOf(st, st.users[uid]);
    }
  }

  lemma LoginKeepsRosterOf(st: HubS, uid: string, appId: string, c: Client, nu: User, v: User)
    requires Roster(st) && c in st.clients && (uid in st.users || nu !in st.people) && LoginFits(st, uid, appId, c)
    requires v in UserLogin(st, uid, appId, c, nu).people
    ensures RosterOf(UserLogin(st, uid, appId, c, nu), v)
  {
    LoginIs(st, uid, appId, c, nu);
    UserOfFits(st, uid, nu);
    var u := UserOf(st, uid, nu);
    if v == u {
      LoginListOwned(st.clients, u, WithUser(st, uid, nu).people[u].appClients, appId, c);
    } else {
      assert RosterOf(st, v) && !ListedBy(st, v, c);
      OwnedElsewhere(st.clients, v, st.people[v].appClients, u, appId, c);
    }
  }

  lemma WithoutIsPart(cs: seq<Client>, c: Client)
    ensures forall d :: d in Without(cs, c) ==> d in cs
  {
  }

  lemma LoginListIsPart(m: map<Client, ClientS>, cs: seq<Client>, appId: string, c: Client)
    requires c in m && forall d :: d in cs ==> d in m
    ensures forall d :: d in LoginList(m, cs, appId, c) ==> d in cs || d == c
  {
  }

  lemma LoginClosed(st: HubS, uid: string, appId: string, c: Client, nu: User)
    requires Closed(st) && c in st.clients && (uid in st.users || nu !in st.people)
    ensures Closed(UserLogin(st, uid, appId, c, nu))
  {
    LoginIs(st, uid, appId, c, nu);
    WithoutIsPart(st.guests, c);
    LoginListIsPart(st.clients, WithUser(st, uid, nu).people[UserOf(st, uid, nu)].appClients, appId, c);
  }

  lemma LoginKeepsRoster(st: HubS, uid: string, appId: string, c: Client, nu: User)
    requires Roster(st) && c in st.clients && (uid in st.users || nu !in st.people) && LoginFits(st, uid, appId, c)
    ensures Roster(UserLogin(st, uid, appId, c, nu))
  {
    LoginIs(st, uid, appId, c, nu);
    UserOfFits(st, uid, nu);
    RemoveGuestRoster(st, c);
    var r := UserLogin(st, uid, appId, c, nu);
    forall v | v in r.people ensures RosterOf(r, v) {
      LoginKeepsRosterOf(st, uid, appId, c, nu, v);
    }
    LoginClosed(st, uid, appId, c, nu);
  }

  lemma LoginBreaksRoster(st: HubS, uid: string, appId: string, c: Client, nu: User)
    requires Roster(st) && c in st.clients && (uid in st.users || nu !in st.people) && !LoginFits(st, uid, appId, c)
    ensures !Roster(UserLogin(st, uid, appId, c, nu))
  {
    LoginIs(st, uid, appId, c, nu);
    UserOfFits(st, uid, nu);
    var u := UserOf(st, uid, nu);
    var r := UserLogin(st, uid, appId, c, nu);
    var v :| v in st.people && ListedBy(st, v, c);
    assert RosterOf(st, v);
    if v == u {
      LoginListOwned(st.clients, u, st.people[u].appClients, appId, c);
      assert !RosterOf(r, u);
    } else {
      assert !RosterOf(r, v);
    }
  }

  /** Main result for Login: the invariant is kept exactly by the logins that fit. */
  lemma LoginKeepsRosterIff(st: HubS, uid: string, appId: string, c: Client, nu: User)
    requires Roster(st) && c in st.clients && (uid in st.users || nu !in st.people)
    ensures Roster(UserLogin(st, uid, appId, c, nu)) <==> LoginFits(st, uid, appId, c)
  {
    if LoginFits(st, uid, appId, c) {
      LoginKeepsRoster(st, uid, appId, c, nu);
    } else {
      LoginBreaksRoster(st, uid, appId, c, nu);
    }
  }

  /** After a login that fits, the client is on the list of the user, under the app, and is the only one there. */
  lemma LoginLists(st: HubS, uid: string, appId: string, c: Client, nu: User)
    requires Roster(st) && c in st.clients && (uid in st.users || nu !in st.people) && LoginFits(st, uid, appId, c)
    ensures var r := UserLogin(st, uid, appId, c, nu);
            && uid in r.users && ListedBy(r, r.users[uid], c) && c !in r.guests
            && forall d :: ListedBy(r, r.users[uid], d) && r.clients[d].appId == appId ==> d == c
  {
    LoginKeepsRoster(st, uid, appId, c, nu);
    LoginIs(st, uid, appId, c, nu);
    UserOfFits(st, uid, nu);
    RemoveGuestRoster(st, c);
    var u := UserOf(st, uid, nu);
    LoginListOwned(st.clients, u, WithUser(st, uid, nu).people[u].appClients, appId, c);
    assert RosterOf(UserLogin(st, uid, appId, c, nu), u);
  }

  lemma ReplacedIsFound(m: map<Client, ClientS>, cs: seq<Client>, appId: string, c: Client, d: Client)
    requires c in m && d in m && d in cs && c != d && m[d].appId == appId
             && (forall x :: x in m ==> m[x].conn == x.conn)
    requires DistinctConns(m.Keys) && forall x :: x in cs ==> x in m
    requires forall i, j :: 0 <= i < j < |cs| ==> m[cs[i]].appId != m[cs[j]].appId
    ensures Replaced(m, cs, appId, c) == multiset{d}
  {
    var i := AppIndex(m, cs, appId);
    var k :| 0 <= k < |cs| && cs[k] == d;
    assert i == k && (m[d].conn == m[c].conn ==> SameConn(d, c));
  }

  /** The other connection of the app is sent to the Disconnect channel by a login, and is off the list. */
  lemma ReplacedIsQueued(st: HubS, uid: string, appId: string, c: Client, d: Client)
    requires Roster(st) && c in st.clients && uid in st.users && LoginFits(st, uid, appId, c)
    requires d in st.clients && ListedBy(st, st.users[uid], d) && st.clients[d].appId == appId && d != c
    ensures var r := UserLogin(st, uid, appId, c, st.users[uid]);
            Roster(r) && r.pending[d] == st.pending[d] + 1 && r.clients[d] == st.clients[d] && !ListedByAny(r, d)
  {
    var u := st.users[uid];
    var r := UserLogin(st, uid, appId, c, u);
    LoginKeepsRoster(st, uid, appId, c, u);
    LoginIs(st, uid, appId, c, u);
    UserOfFits(st, uid, u);
    LoginLists(st, uid, appId, c, u);
    assert RosterOf(st, u);
    ReplacedIsFound(st.clients, st.people[u].appClients, appId, c, d);
    forall v | ListedBy(r, v, d) ensures false {
      ListedByItsUser(r, d, v);
    }
  }

  /** A login that takes the place of another connection of the same app sends it to the Disconnect channel, but by
    * then it is off the list: the disconnect that follows leaves it as open as it was. */
  lemma ReplacedStaysOpen(st: HubS, uid: string, appId: string, c: Client, d: Client, r: HubS)
    requires Roster(st) && c in st.clients && uid in st.users && LoginFits(st, uid, appId, c)
    requires d in st.clients && ListedBy(st, st.users[uid], d) && st.clients[d].appId == appId && d != c
    requires r == UserLogin(st, uid, appId, c, st.users[uid])
    ensures Closed(r) && d in r.clients && r.pending[d] > 0
    ensures Disconnect(r, d).clients == r.clients && r.clients[d].closed == st.clients[d].closed
  {
    ReplacedIsQueued(st, uid, appId, c, d);
    ListedByItsUser(st, d, st.users[uid]);
    DisconnectCloses(r, d);
  }

  // ----- all that a login does to the lists, the clients and the Disconnect channel

  /** The connection on the user's list that a login of `c` under this app takes the place of. */
  ghost predicate GivesWay(st: HubS, uid: string, appId: string, c: Client, d: Client) {
    uid in st.users && d != c && ListedBy(st, st.users[uid], d) && d in st.clients && st.clients[d].appId == appId
  }

  lemma ReplacedIs(m: map<Client, ClientS>, u: User, cs: seq<Client>, appId: string, c: Client, d: Client)
    requires c in m && Owned(m, u, cs) && (forall x :: x in m ==> m[x].conn == x.conn) && DistinctConns(m.Keys)
    ensures Replaced(m, cs, appId, c)[d] == if d != c && d in cs && m[d].appId == appId then 1 else 0
  {
    var i := AppIndex(m, cs, appId);
    assert 0 <= i && m[cs[i]].conn == m[c].conn ==> SameConn(cs[i], c);
    if d in cs && m[d].appId == appId {
      var k :| 0 <= k < |cs| && cs[k] == d;
      assert i == k;
    }
  }

  /** Every login that fits reports to the Disconnect channel exactly the connection that gives way, once, and nobody
    * else: so a first login reports nobody. */
  lemma LoginReports(st: HubS, uid: string, appId: string, c: Client, nu: User, d: Client)
    requires Roster(st) && c in st.clients && (uid in st.users || nu !in st.people)
    ensures UserLogin(st, uid, appId, c, nu).pending[d] ==
            st.pending[d] + if GivesWay(st, uid, appId, c, d) then 1 else 0
  {
    LoginIs(st, uid, appId, c, nu);
    UserOfFits(st, uid, nu);
    ReplacedIs(st.clients, UserOf(st, uid, nu), WithUser(st, uid, nu).people[UserOf(st, uid, nu)].appClients,
               appId, c, d);
  }

  lemma LoginListHas(m: map<Client, ClientS>, u: User, cs: seq<Client>, appId: string, c: Client, d: Client)
    requires c in m && Owned(m, u, cs) && (forall x :: x in m ==> m[x].conn == x.conn) && DistinctConns(m.Keys)
    requires c !in cs || m[c].appId == appId
    ensures d in LoginList(m, cs, appId, c) <==> d == c || (d in cs && m[d].appId != appId)
  {
    if c in cs {
      OwnedAgain(m, u, cs, appId, c);
      ListHasOneOfApp(m, u, cs, c, d);
    } else {
      LoginListIs(m, u, cs, appId, c);
      NoneOfApp(m, cs, appId);
      var i := AppIndex(m, cs, appId);
      if 0 <= i {
        DeleteOwned(m, u, cs, i);
      }
    }
  }

  lemma ListHasOneOfApp(m: map<Client, ClientS>, u: User, cs: seq<Client>, c: Client, d: Client)
    requires c in m && c in cs && Owned(m, u, cs)
    ensures d in cs && m[d].appId == m[c].appId ==> d == c
  {
    if d in cs && d != c {
      var i :| 0 <= i < |cs| && cs[i] == c;
      var j :| 0 <= j < |cs| && cs[j] == d;
      assert if i < j then m[cs[i]].appId != m[cs[j]].appId else m[cs[j]].appId != m[cs[i]].appId;
    }
  }

  /** A login that fits puts the client on the list of its user, takes off it the connection that gives way, takes the
    * client off the guests, and moves nobody else. */
  lemma LoginMovesOnly(st: HubS, uid: string, appId: string, c: Client, nu: User, v: User, d: Client)
    requires Roster(st) && c in st.clients && (uid in st.users || nu !in st.people) && LoginFits(st, uid, appId, c)
    ensures var r := UserLogin(st, uid, appId, c, nu);
            && (ListedBy(r, v, d) <==>
                  (v == UserOf(st, uid, nu) && d == c) || (ListedBy(st, v, d) && !GivesWay(st, uid, appId, c, d)))
            && (d in r.guests <==> d in st.guests && d != c)
  {
    LoginIs(st, uid, appId, c, nu);
    UserOfFits(st, uid, nu);
    RemoveGuestRoster(st, c);
    var u := UserOf(st, uid, nu);
    LoginListHas(st.clients, u, WithUser(st, uid, nu).people[u].appClients, appId, c, d);
    if ListedBy(st, v, d) {
      ListedByItsUser(st, d, v);
    }
    if uid in st.users && ListedBy(st, u, d) {
      ListedByItsUser(st, d, u);
    }
  }

  /** It sets user, app and mark of the client, and registers the user, who is new if the name was free; nothing else of
    * any client or user changes. */
  lemma LoginSets(st: HubS, uid: string, appId: string, c: Client, nu: User, v: User)
    requires Roster(st) && c in st.clients && (uid in st.users || nu !in st.people)
    ensures var r := UserLogin(st, uid, appId, c, nu); var u := if uid in st.users then st.users[uid] else nu;
            && r.users == st.users[uid := u]
            && r.clients == st.clients[c := st.clients[c].(user := u, appId := appId, isLogin := true)]
            && r.people.Keys == st.people.Keys + {u}
            && (v in st.people ==> r.people[v].(appClients := []) == st.people[v].(appClients := []))
            && (uid !in st.users ==> r.people[nu] == UserS(uid, [c], {}, 0))
  {
    LoginIs(st, uid, appId, c, nu);
    assert uid !in st.users ==> LoginList(st.clients, [], appId, c) == [c];
  }
}
