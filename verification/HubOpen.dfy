/** Which clients are open: whom a message still reaches, and what becomes of a connection that was replaced. */
module HubOpen {
  import opened HubState
  import opened HubRoster
  import opened HubTopics
  import opened HubMessages
  import opened HubRuns

  // ----- what one step does to one client

  /** The step is a login, an arrival or the leave of this client. */
  predicate LogsIn(e: Step, d: Client) { e.Login? && e.c == d }

  predicate Arrives(e: Step, d: Client) { e.Arrival? && e.c == d }

  predicate Leaves(e: Step, d: Client) { e.Leave? && e.c == d }

  /** What a leave closes. */
  ghost predicate Closes(st: HubS, d: Client)
    requires d in st.clients
  {
    st.clients[d].user == null || ListedBy(st, st.clients[d].user, d)
  }

  /** A user's list gains a client only by its login. */
  ghost predicate ListMoves(st: HubS, r: HubS, e: Step, u: User, d: Client) {
    ListedBy(r, u, d) ==> (ListedBy(st, u, d) && !Leaves(e, d)) || LogsIn(e, d)
  }

  /** The guests gain a client only by its arrival, only its leave closes it, and only a login gives it a user. */
  ghost predicate ClientMoves(st: HubS, r: HubS, e: Step, d: Client) {
    && (d in r.guests ==> (d in st.guests && !Leaves(e, d)) || Arrives(e, d))
    && (d in r.clients <==> d in st.clients || Arrives(e, d))
    && (Arrives(e, d) && d in r.clients ==> !r.clients[d].closed)
    && (d in st.clients && d in r.clients ==>
          && r.clients[d].closed == (st.clients[d].closed || (Leaves(e, d) && Closes(st, d)))
          && (LogsIn(e, d) || r.clients[d].user == st.clients[d].user))
  }

  /** The lists, the owners and the closed clients are the same in both. */
  ghost predicate SameLists(st: HubS, r: HubS) {
    && r.guests == st.guests && r.people.Keys == st.people.Keys && r.clients.Keys == st.clients.Keys
    && (forall u :: u in st.people ==> r.people[u].appClients == st.people[u].appClients)
    && (forall c :: c in st.clients ==>
          r.clients[c].closed == st.clients[c].closed && r.clients[c].user == st.clients[c].user)
  }

  lemma {:induction false} SendAllSameLists(st: HubS, cs: seq<Client>, m: Msg)
    requires forall c :: c in cs ==> c in st.clients
    ensures SameLists(st, SendAll(st, cs, m))
    decreases |cs|
  {
    if cs == [] {
    } else {
      SendAllSameLists(st, cs[..|cs| - 1], m);
    }
  }

  lemma LoginMovesList(st: HubS, uid: string, appId: string, c: Client, nu: User, u: User, d: Client)
    requires Roster(st) && c in st.clients && (uid in st.users || nu !in st.people)
    ensures ListMoves(st, UserLogin(st, uid, appId, c, nu), Login(uid, appId, c, nu), u, d)
  {
    LoginIs(st, uid, appId, c, nu);
    LoginListIsPart(st.clients, WithUser(st, uid, nu).people[UserOf(st, uid, nu)].appClients, appId, c);
  }

  lemma LoginMovesClient(st: HubS, uid: string, appId: string, c: Client, nu: User, d: Client)
    requires Roster(st) && c in st.clients && (uid in st.users || nu !in st.people)
    ensures ClientMoves(st, UserLogin(st, uid, appId, c, nu), Login(uid, appId, c, nu), d)
  {
    LoginIs(st, uid, appId, c, nu);
    RemoveGuestRoster(st, c);
  }

  lemma LoginMoves(st: HubS, uid: string, appId: string, c: Client, nu: User)
    requires Roster(st) && c in st.clients && (uid in st.users || nu !in st.people)
    ensures var r := UserLogin(st, uid, appId, c, nu); var e := Login(uid, appId, c, nu);
            (forall u, d :: ListMoves(st, r, e, u, d)) && forall d :: ClientMoves(st, r, e, d)
  {
    var r := UserLogin(st, uid, appId, c, nu);
    var e := Login(uid, appId, c, nu);
    forall u, d ensures ListMoves(st, r, e, u, d) {
      LoginMovesList(st, uid, appId, c, nu, u, d);
    }
    forall d ensures ClientMoves(st, r, e, d) {
      LoginMovesClient(st, uid, appId, c, nu, d);
    }
  }

  lemma LeaveMovesClient(st: HubS, c: Client, d: Client)
    requires Roster(st) && c in st.clients
    ensures ClientMoves(st, Disconnect(st, c), Leave(c), d)
  {
    DisconnectGuests(st, c, d);
    DisconnectCloses(st, c);
  }

  lemma LeaveMoves(st: HubS, c: Client)
    requires Roster(st) && c in st.clients
    ensures var r := Disconnect(st, c);
            (forall u, d :: ListMoves(st, r, Leave(c), u, d)) && forall d :: ClientMoves(st, r, Leave(c), d)
  {
    var r := Disconnect(st, c);
    forall u, d ensures ListMoves(st, r, Leave(c), u, d) {
      DisconnectMovesOnly(st, c, u, d);
    }
    forall d ensures ClientMoves(st, r, Leave(c), d) {
      LeaveMovesClient(st, c, d);
    }
  }

  lemma ArrivalMoves(st: HubS, c: Client)
    requires c !in st.clients
    ensures var r := Connect(Arrive(st, c), c);
            (forall u, d :: ListMoves(st, r, Arrival(c), u, d)) && forall d :: ClientMoves(st, r, Arrival(c), d)
  {
  }

  lemma LeaveStepMoves(st: HubS, c: Client)
    requires Roster(st) && c in st.clients
    ensures var r := Disconnect(st.(pending := st.pending - multiset{c}), c);
            (forall u, d :: ListMoves(st, r, Leave(c), u, d)) && forall d :: ClientMoves(st, r, Leave(c), d)
  {
    var s := st.(pending := st.pending - multiset{c});
    SameRoster(st, s);
    LeaveMoves(s, c);
    var r := Disconnect(s, c);
    forall u, d ensures ListMoves(st, r, Leave(c), u, d) {
      assert ListMoves(s, r, Leave(c), u, d);
    }
    forall d ensures ClientMoves(st, r, Leave(c), d) {
      assert ClientMoves(s, r, Leave(c), d);
    }
  }

  lemma DrainSameLists(st: HubS, order: seq<string>)
    requires Closed(st) && st.queue != []
    ensures SameLists(st, Drain(st, order))
  {
    var s := st.(queue := st.queue[1..]);
    if st.queue[0].topic in st.topics {
      SendAllSameLists(s, ClientsOf(s, order), Topical(st.queue[0]));
    }
  }

  lemma TopicStepSameLists(st: HubS, t: string, u: User)
    requires u in st.people
    ensures SameLists(st, Sub(st, t, u)) && SameLists(st, Unsub(st, t, u))
  {
  }

  lemma UnsubSomeSameLists(st: HubS, u: User, ts: set<string>)
    requires u in st.people
    ensures SameLists(st, UnsubSome(st, u, ts))
  {
  }

  /** Every step but these three leaves the lists as they are. */
  lemma QuietStep(st: HubS, e: Step)
    requires Defined(st, e) && !e.Arrival? && !e.Leave? && !e.Login?
    ensures SameLists(st, Take(st, e))
  {
    match e
    case Deliver(order) => DrainSameLists(st, order);
    case Cry(body, order) => SendAllSameLists(st, st.guests + ClientsOf(st, order), Cast(body));
    case Tell(to, body) => SendAllSameLists(st, Addressed(st, to), Direct(body));
    case Subscribe(t, u) => TopicStepSameLists(st, t, u);
    case Unsubscribe(t, u) => TopicStepSameLists(st, t, u);
    case Drop(t, u) =>
      SameUnsubTopic(st, t, u);
      UnsubSomeSameLists(st, u, st.people[u].subTopics * {t});
    case DropAll(u) => UnsubSomeSameLists(st, u, st.people[u].subTopics);
    case _ =>
  }

  lemma QuietMoves(st: HubS, r: HubS, e: Step)
    requires SameLists(st, r) && !e.Arrival? && !e.Leave? && !e.Login?
    ensures (forall u, d :: ListMoves(st, r, e, u, d)) && forall d :: ClientMoves(st, r, e, d)
  {
  }

  lemma StepMoves(st: HubS, e: Step)
    requires Roster(st) && Defined(st, e)
    ensures forall u, d :: ListMoves(st, Take(st, e), e, u, d)
    ensures forall d :: ClientMoves(st, Take(st, e), e, d)
  {
    if e.Arrival? {
      ArrivalMoves(st, e.c);
    } else if e.Leave? {
      LeaveStepMoves(st, e.c);
    } else if e.Login? {
      LoginMoves(st, e.uid, e.appId, e.c, e.nu);
    } else {
      QuietStep(st, e);
      QuietMoves(st, Take(st, e), e);
    }
  }

  // ----- listed clients are open

  ghost predicate OpenIn(st: HubS, c: Client) {
    c in st.clients && !st.clients[c].closed
  }

  /** Every guest and every client of a user is open. */
  ghost predicate AllOpen(st: HubS) {
    (forall c :: c in st.guests ==> OpenIn(st, c)) &&
    forall u, c {:trigger ListedBy(st, u, c)} :: u in st.people && c in st.people[u].appClients ==> OpenIn(st, c)
  }

  /** If the step is a login, it is that of an open client. */
  ghost predicate OpenLogin(st: HubS, e: Step)
    requires Defined(st, e)
  {
    e.Login? ==> OpenIn(st, e.c)
  }

  lemma StaysOpen(st: HubS, e: Step, r: HubS)
    requires AllOpen(st) && (e.Login? ==> OpenIn(st, e.c))
    requires (forall u, d :: ListMoves(st, r, e, u, d)) && forall d :: ClientMoves(st, r, e, d)
    ensures AllOpen(r)
  {
    forall c | c in r.guests ensures OpenIn(r, c) {
      assert ClientMoves(st, r, e, c);
    }
    forall u, c | u in r.people && c in r.people[u].appClients ensures OpenIn(r, c) {
      assert ListedBy(r, u, c) && ListMoves(st, r, e, u, c) && ClientMoves(st, r, e, c);
    }
  }

  /** A closed client is on no list then, so its login fits. */
  lemma LateLoginCloses(st: HubS, e: Step)
    requires Roster(st) && Defined(st, e) && AllOpen(st) && !OpenLogin(st, e)
    ensures !AllOpen(Take(st, e))
  {
    var r := Take(st, e);
    StepMoves(st, e);
    assert !ListedByAny(st, e.c);
    LoginLists(st, e.uid, e.appId, e.c, e.nu);
    assert ClientMoves(st, r, e, e.c) && !OpenIn(r, e.c);
    assert ListedBy(r, r.users[e.uid], e.c);
  }

  /** A step keeps all listed clients open exactly if it is no login of a closed one. */
  lemma StepKeepsOpenIff(st: HubS, e: Step)
    requires Roster(st) && Defined(st, e) && AllOpen(st)
    ensures AllOpen(Take(st, e)) <==> OpenLogin(st, e)
  {
    if OpenLogin(st, e) {
      StepMoves(st, e);
      StaysOpen(st, e, Take(st, e));
    } else {
      LateLoginCloses(st, e);
    }
  }

  // ----- whole runs

  ghost predicate OpenAt(es: seq<Step>, sts: seq<HubS>, n: nat)
    requires IsRun(es, sts) && n < |es|
  {
    OpenLogin(sts[n], es[n])
  }

  ghost predicate AllOpenAt(sts: seq<HubS>, n: nat)
    requires n < |sts|
  {
    AllOpen(sts[n])
  }

  lemma OpenAfterIff(es: seq<Step>, sts: seq<HubS>, n: nat)
    requires IsRun(es, sts) && n < |es| && LoginsFit(es, sts, n) && AllOpenAt(sts, n)
    ensures AllOpenAt(sts, n + 1) <==> OpenAt(es, sts, n)
  {
    FittingRunIsSound(es, sts, n);
    StepKeepsOpenIff(sts[n], es[n]);
  }

  /** All listed clients are open at every point up to `n`. */
  ghost predicate AlwaysOpen(sts: seq<HubS>, n: nat)
    requires n < |sts|
  {
    forall k :: 0 <= k <= n ==> AllOpenAt(sts, k)
  }

  /** No closed client logs in before `n`. */
  ghost predicate NoLateLogin(es: seq<Step>, sts: seq<HubS>, n: nat)
    requires IsRun(es, sts) && n < |sts|
  {
    forall k :: 0 <= k < n ==> OpenAt(es, sts, k)
  }

  lemma AlwaysOpenMore(sts: seq<HubS>, n: nat)
    requires 0 < n < |sts|
    ensures AlwaysOpen(sts, n) <==> AlwaysOpen(sts, n - 1) && AllOpenAt(sts, n)
  {
  }

  lemma NoLateLoginMore(es: seq<Step>, sts: seq<HubS>, n: nat)
    requires IsRun(es, sts) && 0 < n < |sts|
    ensures NoLateLogin(es, sts, n) <==> NoLateLogin(es, sts, n - 1) && OpenAt(es, sts, n - 1)
  {
  }

  /** Main result for open clients: in a run whose logins fit, all listed clients are open at every point exactly if no
    * closed one ever logs in. */
  lemma {:induction false} RunStaysOpenIff(es: seq<Step>, sts: seq<HubS>, n: nat)
    requires IsRun(es, sts) && n < |sts| && LoginsFit(es, sts, n)
    ensures AlwaysOpen(sts, n) <==> NoLateLogin(es, sts, n)
  {
    if n == 0 {
      assert AllOpenAt(sts, 0);
    } else {
      LoginsFitMore(es, sts, n);
      RunStaysOpenIff(es, sts, n - 1);
      AlwaysOpenMore(sts, n);
      NoLateLoginMore(es, sts, n);
      if AlwaysOpen(sts, n - 1) {
        assert AllOpenAt(sts, n - 1);
        OpenAfterIff(es, sts, n - 1);
      }
    }
  }

  /** In such a run a broadcast puts exactly one copy into the outbox of every guest and of every client of a user, and
    * no sending fails. */
  lemma BroadcastReachesAll(es: seq<Step>, sts: seq<HubS>, n: nat, body: int, order: seq<string>, c: Client)
    requires IsRun(es, sts) && n < |sts| && LoginsFit(es, sts, n) && NoLateLogin(es, sts, n)
    requires Ranges(order, sts[n].users.Keys) && c in sts[n].clients
    ensures Closed(sts[n])
    ensures var st := sts[n]; var r := Broadcast(st, body, order);
            && r.clients[c] ==
               (var x := st.clients[c]; if Listed(st, c) then x.(outbox := x.outbox + [Cast(body)]) else x)
            && r.pending[c] == st.pending[c]
  {
    RunStaysOpenIff(es, sts, n);
    assert AllOpenAt(sts, n);
    FittingRunIsSound(es, sts, n);
    BroadcastOnce(sts[n], body, order, c);
    if Listed(sts[n], c) {
      ListedIsOpen(sts[n], c);
    }
  }

  lemma ListedIsOpen(st: HubS, c: Client)
    requires AllOpen(st) && Listed(st, c)
    ensures OpenIn(st, c)
  {
    if ListedByAny(st, c) {
      var u :| u in st.people && ListedBy(st, u, c);
    }
  }

  /** What the client should get of a step: what is sent to it, but for an answer to a connection that has closed. */
  ghost function Due(st: HubS, e: Step, c: Client): seq<Msg>
    requires Defined(st, e)
  {
    if e.Tell? && e.to == Own(c) && !OpenIn(st, c) then [] else Sent(st, e, c)
  }

  /** All that, in the first `i` steps. */
  ghost function DueTo(es: seq<Step>, sts: seq<HubS>, i: nat, c: Client): seq<Msg>
    requires IsRun(es, sts) && i < |sts|
  {
    if i == 0 then [] else DueTo(es, sts, i - 1, c) + Due(sts[i - 1], es[i - 1], c)
  }

  lemma DueArrives(st: HubS, e: Step, c: Client)
    requires Roster(st) && Defined(st, e) && AllOpen(st)
    ensures Arrived(st, e, c) == Due(st, e, c)
  {
    if IsFor(st, e, c) {
      assert ListedBy(st, st.clients[c].user, c);
    } else if IsCalled(st, e, c) {
      ListedIsOpen(st, c);
    } else if IsTold(st, e, c) && !e.to.Own? {
      SendToOnce(st, e.to, e.body, c);
      assert ListedBy(st, e.to.u, c);
    }
  }

  lemma {:induction false} HeardIsDue(es: seq<Step>, sts: seq<HubS>, i: nat, c: Client)
    requires IsRun(es, sts) && i < |sts| && LoginsFit(es, sts, i) && NoLateLogin(es, sts, i)
    ensures Heard(es, sts, i, c) == DueTo(es, sts, i, c)
  {
    if i == 0 {
    } else {
      LoginsFitMore(es, sts, i);
      NoLateLoginMore(es, sts, i);
      HeardIsDue(es, sts, i - 1, c);
      RunStaysOpenIff(es, sts, i - 1);
      assert AllOpenAt(sts, i - 1);
      FittingRunIsSound(es, sts, i - 1);
      DueArrives(sts[i - 1], es[i - 1], c);
    }
  }

  /** And every client's outbox is exactly what was due to it, each message once, in order. */
  lemma ReceivedIsDue(es: seq<Step>, sts: seq<HubS>, i: nat, c: Client)
    requires IsRun(es, sts) && i < |sts| && LoginsFit(es, sts, i) && NoLateLogin(es, sts, i)
    ensures BoxOf(sts[i], c) == DueTo(es, sts, i, c)
  {
    ReceivedIsHeard(es, sts, i, c);
    HeardIsDue(es, sts, i, c);
  }

  // ----- replaced connections

  /** The client has a user, and is on no list: where a login leaves the connection it replaces. */
  ghost predicate Adrift(st: HubS, d: Client) {
    d in st.clients && st.clients[d].user != null && !Listed(st, d)
  }

  /** Nothing but its own login moves it, and nothing closes it. */
  lemma StepLeavesAdrift(st: HubS, e: Step, d: Client)
    requires Roster(st) && Defined(st, e) && Adrift(st, d) && !LogsIn(e, d)
    ensures Adrift(Take(st, e), d) && Take(st, e).clients[d].closed == st.clients[d].closed
  {
    var r := Take(st, e);
    StepMoves(st, e);
    assert ClientMoves(st, r, e, d);
    forall u ensures !ListedBy(r, u, d) {
      assert ListMoves(st, r, e, u, d);
    }
  }

  lemma {:induction false} AdriftUntilLogin(es: seq<Step>, sts: seq<HubS>, i: nat, j: nat, d: Client)
    requires IsRun(es, sts) && i <= j < |sts| && LoginsFit(es, sts, j) && Adrift(sts[i], d)
    requires forall k :: i <= k < j ==> !LogsIn(es[k], d)
    ensures Adrift(sts[j], d) && sts[j].clients[d].closed == sts[i].clients[d].closed
  {
    if i == j {
    } else {
      LoginsFitMore(es, sts, j);
      AdriftUntilLogin(es, sts, i, j - 1, d);
      FittingRunIsSound(es, sts, j - 1);
      StepLeavesAdrift(sts[j - 1], es[j - 1], d);
    }
  }

  /** Main result for replaced connections: when a login takes the place of `d` on the list, then at every later point
    * of the run `d` is on no list and as open as it was, until it logs in again itself; whatever disconnects are queued
    * for it. */
  lemma ReplacedIsNeverClosed(es: seq<Step>, sts: seq<HubS>, i: nat, j: nat, d: Client)
    requires IsRun(es, sts) && i < j < |sts| && LoginsFit(es, sts, j) && es[i].Login? && es[i].c != d
    requires var st := sts[i];
             && es[i].uid in st.users && d in st.clients
             && ListedBy(st, st.users[es[i].uid], d) && st.clients[d].appId == es[i].appId
    requires forall k :: i < k < j ==> !LogsIn(es[k], d)
    ensures d in sts[i].clients && Adrift(sts[j], d) && sts[j].clients[d].closed == sts[i].clients[d].closed
  {
    var st, e := sts[i], es[i];
    FittingRunIsSound(es, sts, i);
    assert FitsAt(es, sts, i);
    LoginGivesAdrift(st, e, d);
    AdriftUntilLogin(es, sts, i + 1, j, d);
  }

  lemma LoginGivesAdrift(st: HubS, e: Step, d: Client)
    requires Roster(st) && Defined(st, e) && Fits(st, e)
    requires e.Login? && e.c != d && e.uid in st.users && d in st.clients
    requires ListedBy(st, st.users[e.uid], d) && st.clients[d].appId == e.appId
    ensures Adrift(Take(st, e), d) && Take(st, e).clients[d] == st.clients[d]
  {
    var r := Take(st, e);
    assert r == UserLogin(st, e.uid, e.appId, e.c, st.users[e.uid]) by {
      assert UserOf(st, e.uid, e.nu) == UserOf(st, e.uid, st.users[e.uid]);
    }
    ReplacedIsQueued(st, e.uid, e.appId, e.c, d);
    ListedByItsUser(st, d, st.users[e.uid]);
    RemoveGuestRoster(st, e.c);
    LoginIs(st, e.uid, e.appId, e.c, e.nu);
  }
}
