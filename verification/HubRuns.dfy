/** Whole runs of the hub: any interleaving of its steps, each one atomic. */
module HubRuns {
  import opened HubState
  import opened HubRoster
  import opened HubTopics
  import opened HubMessages

  /** `Report` puts a client on the Disconnect channel (its reader or its writer has ended), `Leave` takes one off.
    * The sequences are the orders in which maps are ranged over; `nu` is the object a login allocates. */
  datatype Step =
    | Arrival(c: Client)
    | Report(c: Client)
    | Leave(c: Client)
    | Login(uid: string, appId: string, c: Client, nu: User)
    | Subscribe(t: string, u: User)
    | Unsubscribe(t: string, u: User)
    | Drop(t: string, u: User)
    | DropAll(u: User)
    | Publish(t: string)
    | Deliver(order: seq<string>)
    | Guard(order: seq<string>, now: int)
    | Cry(body: int, order: seq<string>)
    | Tell(to: Addressee, body: int)
    | Beat(u: User, now: int)

  /** The lists are sound, and every outbox is in publication order. */
  ghost predicate Sound(st: HubS) {
    Roster(st) && InPublishOrder(st)
  }

  /** And the two sides of all subscriptions agree. */
  ghost predicate Good(st: HubS) {
    Sound(st) && Mirrored(st)
  }

  /** When a step can be taken: its objects are known, a new connection is new, and orders are those of the maps. */
  ghost predicate Defined(st: HubS, e: Step) {
    Closed(st) &&
    match e
    case Arrival(c) => c !in st.clients && forall d :: d in st.clients ==> d.conn != c.conn
    case Report(c) => c in st.clients
    case Leave(c) => c in st.clients && st.pending[c] > 0
    case Login(uid, appId, c, nu) => c in st.clients && (uid in st.users || nu !in st.people)
    case Subscribe(t, u) => u in st.people
    case Unsubscribe(t, u) => u in st.people
    case Drop(t, u) => u in st.people
    case DropAll(u) => u in st.people
    case Publish(t) => true
    case Deliver(order) =>
      st.queue != [] && (st.queue[0].topic in st.topics ==> Ranges(order, st.topics[st.queue[0].topic]))
    case Guard(order, now) => Ranges(order, st.users.Keys)
    case Cry(body, order) => Ranges(order, st.users.Keys)
    case Tell(to, body) => KnownTo(st, to)
    case Beat(u, now) => u in st.people
  }

  /** If the step is a login, it is one that keeps the lists sound. */
  ghost predicate Fits(st: HubS, e: Step)
    requires Defined(st, e)
  {
    e.Login? ==> LoginFits(st, e.uid, e.appId, e.c)
  }

  /** If the step changes subscriptions, it is through the registered user object, or one for which it makes no
    * difference. */
  ghost predicate Mirrors(st: HubS, e: Step)
    requires Defined(st, e)
  {
    match e
    case Subscribe(t, u) => Registered(st, u) || Holds(st, st.people[u].suid, t)
    case Unsubscribe(t, u) => Registered(st, u) || !Holds(st, st.people[u].suid, t)
    case Drop(t, u) => Registered(st, u) || t !in st.people[u].subTopics || !Holds(st, st.people[u].suid, t)
    case DropAll(u) => Registered(st, u) || forall t :: t in st.people[u].subTopics ==> !Holds(st, st.people[u].suid, t)
    case _ => true
  }

  ghost predicate Allowed(st: HubS, e: Step) {
    Defined(st, e) && Fits(st, e) && Mirrors(st, e)
  }

  function Take(st: HubS, e: Step): HubS
    requires Defined(st, e)
  {
    match e
    case Arrival(c) => Connect(Arrive(st, c), c)
    case Report(c) => st.(pending := st.pending + multiset{c})
    case Leave(c) => Disconnect(st.(pending := st.pending - multiset{c}), c)
    case Login(uid, appId, c, nu) => UserLogin(st, uid, appId, c, nu)
    case Subscribe(t, u) => Sub(st, t, u)
    case Unsubscribe(t, u) => Unsub(st, t, u)
    case Drop(t, u) => UnsubTopic(st, t, u)
    case DropAll(u) => UnsubAll(st, u)
    case Publish(t) => Pub(st, t)
    case Deliver(order) => Drain(st, order)
    case Guard(order, now) => Sweep(st, order, now)
    case Cry(body, order) => Broadcast(st, body, order)
    case Tell(to, body) => SendTo(st, to, body)
    case Beat(u, now) => Heartbeat(st, u, now)
  }

  // ----- what each step keeps

  /** Every object in reach stays known, whatever the step: so a run never gets stuck for that reason. */
  lemma StepKeepsClosed(st: HubS, e: Step)
    requires Defined(st, e)
    ensures Closed(Take(st, e))
  {
    match e
    case Leave(c) => LeaveKeepsClosed(st.(pending := st.pending - multiset{c}), c);
    case Login(uid, appId, c, nu) => LoginClosed(st, uid, appId, c, nu);
    case Drop(t, u) => SameUnsubTopic(st, t, u);
    case Deliver(order) =>
      var s := st.(queue := st.queue[1..]);
      if st.queue[0].topic in st.topics {
        SendAllKeepsClosed(s, ClientsOf(s, order), Topical(st.queue[0]));
      }
    case Cry(body, order) => SendAllKeepsClosed(st, st.guests + ClientsOf(st, order), Cast(body));
    case Tell(to, body) => SendAllKeepsClosed(st, Addressed(st, to), Direct(body));
    case _ =>
  }

  lemma LeaveKeepsClosed(st: HubS, c: Client)
    requires Closed(st) && c in st.clients
    ensures Closed(Disconnect(st, c))
  {
    WithoutIsPart(st.guests, c);
  }

  lemma {:induction false} SendAllKeepsClosed(st: HubS, cs: seq<Client>, m: Msg)
    requires Closed(st) && forall c :: c in cs ==> c in st.clients
    ensures Closed(SendAll(st, cs, m))
    decreases |cs|
  {
    if cs == [] {
    } else {
      SendAllKeepsClosed(st, cs[..|cs| - 1], m);
    }
  }

  /** A step keeps the lists sound exactly if it is no login that does not fit. */
  lemma StepKeepsRosterIff(st: HubS, e: Step)
    requires Roster(st) && Defined(st, e)
    ensures Roster(Take(st, e)) <==> Fits(st, e)
  {
    match e
    case Arrival(c) =>
      ArriveKeepsRoster(st, c);
      ConnectKeepsRosterIff(Arrive(st, c), c);
    case Report(c) => SameRoster(st, Take(st, e));
    case Leave(c) =>
      var s := st.(pending := st.pending - multiset{c});
      SameRoster(st, s);
      DisconnectKeepsRoster(s, c);
    case Login(uid, appId, c, nu) => LoginKeepsRosterIff(st, uid, appId, c, nu);
    case Subscribe(t, u) => SubUnsubKeepRoster(st, t, u);
    case Unsubscribe(t, u) => SubUnsubKeepRoster(st, t, u);
    case Drop(t, u) =>
      SameUnsubTopic(st, t, u);
      UnsubSomeKeepsRoster(st, u, st.people[u].subTopics * {t});
    case DropAll(u) => UnsubSomeKeepsRoster(st, u, st.people[u].subTopics);
    case Publish(t) => PubKeepsRoster(st, t);
    case Deliver(order) => DrainKeepsRoster(st, order);
    case Guard(order, now) => SweepResult(st, order, now);
    case Cry(body, order) => SendAllKeepsRoster(st, st.guests + ClientsOf(st, order), Cast(body));
    case Tell(to, body) => SendAllKeepsRoster(st, Addressed(st, to), Direct(body));
    case Beat(u, now) => SameRoster(st, Take(st, e));
  }

  lemma DrainKeepsRoster(st: HubS, order: seq<string>)
    requires Roster(st) && st.queue != []
    ensures Roster(Drain(st, order))
  {
    var s := st.(queue := st.queue[1..]);
    SameRoster(st, s);
    if st.queue[0].topic in st.topics {
      SendAllKeepsRoster(s, ClientsOf(s, order), Topical(st.queue[0]));
    }
  }

  /** A step keeps the two sides of all subscriptions equal exactly if it does not change them through a user object
    * that is not registered. */
  lemma StepKeepsMirrorIff(st: HubS, e: Step)
    requires Roster(st) && Mirrored(st) && Defined(st, e)
    ensures Mirrored(Take(st, e)) <==> Mirrors(st, e)
  {
    match e
    case Arrival(c) =>
      SameSides(st, Arrive(st, c));
      ConnectKeepsMirror(Arrive(st, c), c);
    case Report(c) => SameSides(st, Take(st, e));
    case Leave(c) =>
      var s := st.(pending := st.pending - multiset{c});
      SameSides(st, s);
      DisconnectKeepsMirror(s, c);
    case Login(uid, appId, c, nu) => LoginKeepsMirror(st, uid, appId, c, nu);
    case Subscribe(t, u) => SubKeepsMirrorIff(st, t, u);
    case Unsubscribe(t, u) => UnsubKeepsMirrorIff(st, t, u);
    case Drop(t, u) => UnsubTopicKeepsMirrorIff(st, t, u);
    case DropAll(u) => UnsubAllKeepsMirrorIff(st, u);
    case Publish(t) => PubKeepsMirror(st, t);
    case Deliver(order) => SameSides(st, Take(st, e));
    case Guard(order, now) => SweepKeepsMirror(st, order, now);
    case Cry(body, order) => SameSides(st, Take(st, e));
    case Tell(to, body) => SameSides(st, Take(st, e));
    case Beat(u, now) => SameSides(st, Take(st, e));
  }

  /** What a step that sends nothing does to the messages: some are added to the queue, no outbox changes. */
  ghost predicate OnlyPublishes(st: HubS, r: HubS) {
    && |st.queue| <= |r.queue| && r.queue[..|st.queue|] == st.queue
    && r.published - |r.queue| == st.published - |st.queue|
    && (forall i :: |st.queue| <= i < |r.queue| ==> r.queue[i].no == st.published - |st.queue| + i)
    && st.clients.Keys <= r.clients.Keys
    && (forall c :: c in r.clients ==> r.clients[c].outbox == if c in st.clients then st.clients[c].outbox else [])
  }

  lemma OnlyPublishesTwice(st: HubS, r: HubS, q: HubS)
    requires OnlyPublishes(st, r) && OnlyPublishes(r, q)
    ensures OnlyPublishes(st, q)
  {
    assert forall i :: 0 <= i < |r.queue| ==> q.queue[i] == q.queue[..|r.queue|][i];
  }

  lemma PubOnlyPublishes(st: HubS, t: string)
    ensures OnlyPublishes(st, Pub(st, t))
  {
  }

  lemma SweepOnlyPublishes(st: HubS, order: seq<string>, now: int)
    requires Closed(st) && Ranges(order, st.users.Keys)
    ensures OnlyPublishes(st, Sweep(st, order, now))
  {
    VisitsOnlyPublish(st, order, now);
    var r := VisitAll(st, order, now).(loginCount := CountOnline(st, order), guestCount := |st.guests|);
    OnlyPublishesTwice(st, r, Pub(r, "userCount"));
    OnlyPublishesTwice(st, Pub(r, "userCount"), Pub(Pub(r, "userCount"), "guestsCount"));
  }

  lemma {:induction false} VisitsOnlyPublish(st: HubS, order: seq<string>, now: int)
    requires Closed(st)
    ensures OnlyPublishes(st, VisitAll(st, order, now))
  {
    if order == [] {
    } else {
      var n := |order| - 1;
      VisitsOnlyPublish(st, order[..n], now);
      OnlyPublishesTwice(st, VisitAll(st, order[..n], now), VisitAll(st, order, now));
    }
  }

  lemma LogoutOnlyPublishes(st: HubS, u: User, appId: string, c: Client)
    requires Closed(st) && u in st.people && c in st.clients
    ensures OnlyPublishes(st, AppLogout(st, u, appId, c))
  {
    var cs := st.people[u].appClients;
    var i := ConnIndex(st.clients, cs, appId, st.clients[c].conn);
    var s := if i < 0 then st else Close(SetClients(st, u, DeleteAt(cs, i)), c);
    PubOnlyPublishes(s, "logout");
    OnlyPublishesTwice(st, s, Pub(s, "logout"));
  }

  lemma LeaveOnlyPublishes(st: HubS, c: Client)
    requires Closed(st) && c in st.clients
    ensures OnlyPublishes(st, Disconnect(st, c))
  {
    var s := Pub(st, "disconnect");
    PubOnlyPublishes(st, "disconnect");
    if st.clients[c].user != null {
      LogoutOnlyPublishes(s, st.clients[c].user, st.clients[c].appId, c);
    }
    OnlyPublishesTwice(st, s, Disconnect(st, c));
  }

  lemma LoginOnlyPublishes(st: HubS, uid: string, appId: string, c: Client, nu: User)
    requires Closed(st) && c in st.clients && (uid in st.users || nu !in st.people)
    ensures OnlyPublishes(st, UserLogin(st, uid, appId, c, nu))
  {
    var u := UserOf(st, uid, nu);
    var s := WithUser(st, uid, nu);
    AppLoginOnlyPublishes(s, u, appId, c);
    SameBoxes(st, s, AppLogin(s, u, appId, c), UserLogin(st, uid, appId, c, nu));
  }

  /** Only the clients and the queue matter. */
  lemma SameBoxes(st: HubS, s: HubS, r: HubS, q: HubS)
    requires OnlyPublishes(s, r)
    requires s.clients == st.clients && s.queue == st.queue && s.published == st.published
    requires q.clients == r.clients && q.queue == r.queue && q.published == r.published
    ensures OnlyPublishes(st, q)
  {
  }

  lemma AppLoginOnlyPublishes(st: HubS, u: User, appId: string, c: Client)
    requires Closed(st) && u in st.people && c in st.clients
    ensures OnlyPublishes(st, AppLogin(st, u, appId, c))
  {
    var cs := st.people[u].appClients;
    var s := SetClients(st, u, LoginList(st.clients, cs, appId, c))
             .(clients := LoggedIn(st.clients, u, appId, c),
               pending := st.pending + Replaced(st.clients, cs, appId, c));
    PubOnlyPublishes(s, "login");
    OnlyPublishesTwice(st, s, Pub(s, "login"));
  }

  lemma ArrivalOnlyPublishes(st: HubS, c: Client)
    requires c !in st.clients
    ensures OnlyPublishes(st, Connect(Arrive(st, c), c))
  {
  }

  lemma TopicStepOnlyPublishes(st: HubS, t: string, u: User)
    requires u in st.people
    ensures OnlyPublishes(st, Sub(st, t, u)) && OnlyPublishes(st, Unsub(st, t, u))
  {
  }

  lemma UnsubSomeOnlyPublishes(st: HubS, u: User, ts: set<string>)
    requires u in st.people
    ensures OnlyPublishes(st, UnsubSome(st, u, ts))
  {
  }

  lemma LeaveStepOnlyPublishes(st: HubS, c: Client)
    requires Closed(st) && c in st.clients
    ensures OnlyPublishes(st, Disconnect(st.(pending := st.pending - multiset{c}), c))
  {
    var s := st.(pending := st.pending - multiset{c});
    LeaveOnlyPublishes(s, c);
    SameBoxes(st, s, Disconnect(s, c), Disconnect(s, c));
  }

  ghost predicate Silent(e: Step) { !e.Deliver? && !e.Cry? && !e.Tell? }

  lemma SilentStep(st: HubS, e: Step)
    requires Defined(st, e) && Silent(e)
    ensures OnlyPublishes(st, Take(st, e))
  {
    match e
    case Arrival(c) => ArrivalOnlyPublishes(st, c);
    case Report(c) =>
    case Leave(c) => LeaveStepOnlyPublishes(st, c);
    case Login(uid, appId, c, nu) => LoginOnlyPublishes(st, uid, appId, c, nu);
    case Subscribe(t, u) => TopicStepOnlyPublishes(st, t, u);
    case Unsubscribe(t, u) => TopicStepOnlyPublishes(st, t, u);
    case Drop(t, u) =>
      SameUnsubTopic(st, t, u);
      UnsubSomeOnlyPublishes(st, u, st.people[u].subTopics * {t});
    case DropAll(u) => UnsubSomeOnlyPublishes(st, u, st.people[u].subTopics);
    case Publish(t) => PubOnlyPublishes(st, t);
    case Guard(order, now) => SweepOnlyPublishes(st, order, now);
    case Beat(u, now) =>
  }

  lemma PublishingInOrder(st: HubS, r: HubS)
    requires QueueInOrder(st) && OnlyPublishes(st, r)
    ensures QueueInOrder(r) && (InPublishOrder(st) ==> InPublishOrder(r))
  {
    assert forall i :: 0 <= i < |st.queue| ==> r.queue[i] == r.queue[..|st.queue|][i];
  }

  lemma StepKeepsOrder(st: HubS, e: Step)
    requires Sound(st) && Defined(st, e)
    ensures InPublishOrder(Take(st, e))
  {
    match e
    case Deliver(order) => DrainInOrder(st, order);
    case Cry(body, order) => SendAllInOrder(st, st.guests + ClientsOf(st, order), Cast(body));
    case Tell(to, body) => SendAllInOrder(st, Addressed(st, to), Direct(body));
    case _ =>
      SilentStep(st, e);
      PublishingInOrder(st, Take(st, e));
  }

  /** The queue stays in order, and the number of messages that have left it grows by one at each delivery. */
  lemma StepCounts(st: HubS, e: Step)
    requires QueueInOrder(st) && Defined(st, e)
    ensures QueueInOrder(Take(st, e))
    ensures Take(st, e).published - |Take(st, e).queue| == st.published - |st.queue| + if e.Deliver? then 1 else 0
  {
    if Silent(e) {
      SilentStep(st, e);
      PublishingInOrder(st, Take(st, e));
    }
  }

  // ----- runs

  /** `sts` are the states of a run of `es` from the empty hub. */
  ghost predicate IsRun(es: seq<Step>, sts: seq<HubS>) {
    && |sts| == |es| + 1 && sts[0] == START
    && forall i :: 0 <= i < |es| ==> Defined(sts[i], es[i]) && sts[i + 1] == Take(sts[i], es[i])
  }

  ghost predicate SoundAt(sts: seq<HubS>, n: nat)
    requires n < |sts|
  {
    Sound(sts[n])
  }

  ghost predicate FitsAt(es: seq<Step>, sts: seq<HubS>, n: nat)
    requires IsRun(es, sts) && n < |es|
  {
    Fits(sts[n], es[n])
  }

  lemma SoundAfterIff(es: seq<Step>, sts: seq<HubS>, n: nat)
    requires IsRun(es, sts) && n < |es| && SoundAt(sts, n)
    ensures SoundAt(sts, n + 1) <==> FitsAt(es, sts, n)
  {
    StepKeepsRosterIff(sts[n], es[n]);
    StepKeepsOrder(sts[n], es[n]);
  }

  /** The lists are sound and the outboxes in order at every point up to `n`. */
  ghost predicate AlwaysSound(sts: seq<HubS>, n: nat)
    requires n < |sts|
  {
    forall k :: 0 <= k <= n ==> SoundAt(sts, k)
  }

  /** Every login before `n` fits. */
  ghost predicate LoginsFit(es: seq<Step>, sts: seq<HubS>, n: nat)
    requires IsRun(es, sts) && n < |sts|
  {
    forall k :: 0 <= k < n ==> FitsAt(es, sts, k)
  }

  lemma AlwaysSoundMore(sts: seq<HubS>, n: nat)
    requires 0 < n < |sts|
    ensures AlwaysSound(sts, n) <==> AlwaysSound(sts, n - 1) && SoundAt(sts, n)
  {
  }

  lemma LoginsFitMore(es: seq<Step>, sts: seq<HubS>, n: nat)
    requires IsRun(es, sts) && 0 < n < |sts|
    ensures LoginsFit(es, sts, n) <==> LoginsFit(es, sts, n - 1) && FitsAt(es, sts, n - 1)
  {
  }

  /** Main result for the lists: over any run, they are sound and every outbox is in publication order at every point
    * exactly if every login fits. */
  lemma {:induction false} RunIsSoundIff(es: seq<Step>, sts: seq<HubS>, n: nat)
    requires IsRun(es, sts) && n < |sts|
    ensures AlwaysSound(sts, n) <==> LoginsFit(es, sts, n)
  {
    if n == 0 {
      assert SoundAt(sts, 0);
    } else {
      RunIsSoundIff(es, sts, n - 1);
      AlwaysSoundMore(sts, n);
      LoginsFitMore(es, sts, n);
      if AlwaysSound(sts, n - 1) {
        assert SoundAt(sts, n - 1);
        SoundAfterIff(es, sts, n - 1);
      }
    }
  }

  lemma FittingRunIsSound(es: seq<Step>, sts: seq<HubS>, n: nat)
    requires IsRun(es, sts) && n < |sts| && LoginsFit(es, sts, n)
    ensures Sound(sts[n])
  {
    RunIsSoundIff(es, sts, n);
    assert SoundAt(sts, n);
  }

  ghost predicate GoodAt(sts: seq<HubS>, n: nat)
    requires n < |sts|
  {
    Good(sts[n])
  }

  ghost predicate AllowedAt(es: seq<Step>, sts: seq<HubS>, n: nat)
    requires n < |es| && n < |sts|
  {
    Allowed(sts[n], es[n])
  }

  lemma GoodAfterIff(es: seq<Step>, sts: seq<HubS>, n: nat)
    requires IsRun(es, sts) && n < |es| && GoodAt(sts, n)
    ensures GoodAt(sts, n + 1) <==> AllowedAt(es, sts, n)
  {
    StepKeepsRosterIff(sts[n], es[n]);
    StepKeepsMirrorIff(sts[n], es[n]);
    StepKeepsOrder(sts[n], es[n]);
  }

  ghost predicate AlwaysGood(sts: seq<HubS>, n: nat)
    requires n < |sts|
  {
    forall k :: 0 <= k <= n ==> GoodAt(sts, k)
  }

  ghost predicate AllAllowed(es: seq<Step>, sts: seq<HubS>, n: nat)
    requires IsRun(es, sts) && n < |sts|
  {
    forall k :: 0 <= k < n ==> AllowedAt(es, sts, k)
  }

  lemma AlwaysGoodMore(sts: seq<HubS>, n: nat)
    requires 0 < n < |sts|
    ensures AlwaysGood(sts, n) <==> AlwaysGood(sts, n - 1) && GoodAt(sts, n)
  {
  }

  lemma AllAllowedMore(es: seq<Step>, sts: seq<HubS>, n: nat)
    requires IsRun(es, sts) && 0 < n < |sts|
    ensures AllAllowed(es, sts, n) <==> AllAllowed(es, sts, n - 1) && AllowedAt(es, sts, n - 1)
  {
  }

  /** Main result for subscriptions: over any run, all that and the agreement of the two sides of every subscription
    * hold at every point exactly if every step is allowed: all logins fit, and no user object that is not registered
    * changes a subscription in a way that matters. */
  lemma {:induction false} RunIsGoodIff(es: seq<Step>, sts: seq<HubS>, n: nat)
    requires IsRun(es, sts) && n < |sts|
    ensures AlwaysGood(sts, n) <==> AllAllowed(es, sts, n)
  {
    if n == 0 {
      assert GoodAt(sts, 0);
    } else {
      RunIsGoodIff(es, sts, n - 1);
      AlwaysGoodMore(sts, n);
      AllAllowedMore(es, sts, n);
      if AlwaysGood(sts, n - 1) {
        assert GoodAt(sts, n - 1);
        GoodAfterIff(es, sts, n - 1);
      }
    }
  }

  // ----- messages over a run

  /** How many of the first `i` steps took a message off the queue. */
  function Deliveries(es: seq<Step>, i: nat): nat
    requires i <= |es|
  {
    if i == 0 then 0 else Deliveries(es, i - 1) + if es[i - 1].Deliver? then 1 else 0
  }

  /** Over any run whatsoever, what was published is what was delivered and what still waits, in the order of
    * publication. */
  lemma {:induction false} NothingLost(es: seq<Step>, sts: seq<HubS>, i: nat)
    requires IsRun(es, sts) && i < |sts|
    ensures QueueInOrder(sts[i]) && sts[i].published == Deliveries(es, i) + |sts[i].queue|
  {
    if i == 0 {
    } else {
      NothingLost(es, sts, i - 1);
      StepCounts(sts[i - 1], es[i - 1]);
    }
  }

  /** Messages leave the queue in the order they were published, none skipped and none twice: the k-th delivery of a
    * run, counting from 0, is of message number k. */
  lemma DeliveredInOrder(es: seq<Step>, sts: seq<HubS>, i: nat)
    requires IsRun(es, sts) && i < |es| && es[i].Deliver?
    ensures sts[i].queue != [] && sts[i].queue[0].no == Deliveries(es, i)
  {
    NothingLost(es, sts, i);
  }

  function BoxOf(st: HubS, c: Client): seq<Msg> {
    if c in st.clients then st.clients[c].outbox else []
  }

  /** The step delivers a message that the client is there to hear: it is on the list of a registered user subscribed to
    * the topic. */
  ghost predicate IsFor(st: HubS, e: Step, c: Client)
    requires Defined(st, e)
  {
    e.Deliver? && Hears(st, st.queue[0].topic, c)
  }

  /** The step broadcasts, and the client is listed. */
  ghost predicate IsCalled(st: HubS, e: Step, c: Client)
    requires Defined(st, e)
  {
    e.Cry? && c in st.clients && Listed(st, c)
  }

  /** The step answers the client, or is a message to its user. */
  ghost predicate IsTold(st: HubS, e: Step, c: Client)
    requires Defined(st, e)
  {
    e.Tell? && c in Addressed(st, e.to)
  }

  /** What the step sends to the client. */
  ghost function Sent(st: HubS, e: Step, c: Client): seq<Msg>
    requires Defined(st, e)
  {
    if IsFor(st, e, c) then [Topical(st.queue[0])]
    else if IsCalled(st, e, c) then [Cast(e.body)]
    else if IsTold(st, e, c) then [Direct(e.body)]
    else []
  }

  /** What of it arrives: nothing at a closed client. */
  ghost function Arrived(st: HubS, e: Step, c: Client): seq<Msg>
    requires Defined(st, e)
  {
    if c in st.clients && st.clients[c].closed then [] else Sent(st, e, c)
  }

  /** All that, in the first `i` steps. */
  ghost function Heard(es: seq<Step>, sts: seq<HubS>, i: nat, c: Client): seq<Msg>
    requires IsRun(es, sts) && i < |sts|
  {
    if i == 0 then [] else Heard(es, sts, i - 1, c) + Arrived(sts[i - 1], es[i - 1], c)
  }

  lemma DeliverBox(st: HubS, e: Step, c: Client)
    requires Roster(st) && Defined(st, e) && e.Deliver? && c in st.clients
    ensures BoxOf(Take(st, e), c) == BoxOf(st, c) + Arrived(st, e, c)
  {
    DrainOnce(st, e.order, c);
  }

  lemma CryBox(st: HubS, e: Step, c: Client)
    requires Roster(st) && Defined(st, e) && e.Cry? && c in st.clients
    ensures BoxOf(Take(st, e), c) == BoxOf(st, c) + Arrived(st, e, c)
  {
    BroadcastOnce(st, e.body, e.order, c);
  }

  lemma TellBox(st: HubS, e: Step, c: Client)
    requires Roster(st) && Defined(st, e) && e.Tell? && c in st.clients
    ensures BoxOf(Take(st, e), c) == BoxOf(st, c) + Arrived(st, e, c)
  {
    SendToOnce(st, e.to, e.body, c);
  }

  lemma SilentBox(st: HubS, e: Step, c: Client)
    requires Defined(st, e) && Silent(e)
    ensures BoxOf(Take(st, e), c) == BoxOf(st, c) && Arrived(st, e, c) == []
  {
    SilentStep(st, e);
  }

  lemma BoxStep(st: HubS, e: Step, c: Client)
    requires Roster(st) && Defined(st, e)
    ensures BoxOf(Take(st, e), c) == BoxOf(st, c) + Arrived(st, e, c)
  {
    if Silent(e) {
      SilentBox(st, e, c);
    } else if c in st.clients {
      if e.Deliver? {
        DeliverBox(st, e, c);
      } else if e.Cry? {
        CryBox(st, e, c);
      } else {
        TellBox(st, e, c);
      }
    }
  }

  /** Main result for messages, over any run whose logins fit: a client's outbox is exactly what was delivered,
    * broadcast or sent to it while it was there to hear it, each once, in that order. */
  lemma {:induction false} ReceivedIsHeard(es: seq<Step>, sts: seq<HubS>, i: nat, c: Client)
    requires IsRun(es, sts) && i < |sts| && LoginsFit(es, sts, i)
    ensures BoxOf(sts[i], c) == Heard(es, sts, i, c)
  {
    if i == 0 {
    } else {
      LoginsFitMore(es, sts, i);
      ReceivedIsHeard(es, sts, i - 1, c);
      FittingRunIsSound(es, sts, i - 1);
      BoxStep(sts[i - 1], es[i - 1], c);
      assert sts[i] == Take(sts[i - 1], es[i - 1]);
    }
  }
}
