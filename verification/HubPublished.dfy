/** Which topics a step publishes on, and what that comes to over runs: every delivery is on the topic of its
  * publication. */
module HubPublished {
  import opened HubState
  import opened HubRoster
  import opened HubTopics
  import opened HubRuns

  // ----- what is announced

  function TopicsOf(queue: seq<TopicMsg>): (ts: seq<string>)
    ensures |ts| == |queue|
  {
    seq(|queue|, i requires 0 <= i < |queue| => queue[i].topic)
  }

  /** The users that a guard removes, of those in `order`. */
  ghost function Removed(st: HubS, order: seq<string>, now: int): set<string>
    requires Closed(st)
  {
    set s | s in order && s in st.users && Idle(st, s, now)
  }

  function Cleanups(n: nat): seq<string> {
    seq(n, _ => "cleanupUser")
  }

  /** The topics a step publishes on, in order. */
  ghost function Announced(st: HubS, e: Step): seq<string>
    requires Defined(st, e)
  {
    match e
    case Arrival(_) => ["connect"]
    case Leave(c) => if st.clients[c].user == null then ["disconnect"] else ["disconnect", "logout"]
    case Login(_, _, _, _) => ["login"]
    case Publish(t) => [t]
    case Guard(order, now) => Cleanups(|Removed(st, order, now)|) + ["userCount", "guestsCount"]
    case _ => []
  }

  lemma PubAnnounces(st: HubS, t: string)
    ensures var r := Pub(st, t); TopicsOf(r.queue) == TopicsOf(st.queue) + [t] && t in r.topics
  {
  }

  lemma LeaveAnnounces(st: HubS, c: Client)
    requires Closed(st) && c in st.clients
    ensures TopicsOf(Disconnect(st, c).queue) ==
            TopicsOf(st.queue) + if st.clients[c].user == null then ["disconnect"] else ["disconnect", "logout"]
  {
    PubAnnounces(st, "disconnect");
    var s := Pub(st, "disconnect");
    if st.clients[c].user != null {
      LogoutAnnounces(s, st.clients[c].user, st.clients[c].appId, c);
      assert TopicsOf(st.queue) + ["disconnect"] + ["logout"] == TopicsOf(st.queue) + ["disconnect", "logout"];
    }
  }

  lemma LogoutAnnounces(st: HubS, u: User, appId: string, c: Client)
    requires Closed(st) && u in st.people && c in st.clients
    ensures TopicsOf(AppLogout(st, u, appId, c).queue) == TopicsOf(st.queue) + ["logout"]
  {
  }

  lemma LoginAnnounces(st: HubS, uid: string, appId: string, c: Client, nu: User)
    requires Closed(st) && c in st.clients && (uid in st.users || nu !in st.people)
    ensures TopicsOf(UserLogin(st, uid, appId, c, nu).queue) == TopicsOf(st.queue) + ["login"]
  {
    var s := WithUser(st, uid, nu);
    assert AppLogin(s, UserOf(st, uid, nu), appId, c).queue == st.queue + [TopicMsg("login", st.published)];
  }

  lemma RemovedMore(st: HubS, before: seq<string>, s: string, now: int)
    requires Closed(st) && s !in before && s in st.users
    ensures |Removed(st, before + [s], now)| == |Removed(st, before, now)| + if Idle(st, s, now) then 1 else 0
  {
    var a, b := Removed(st, before, now), Removed(st, before + [s], now);
    assert b == if Idle(st, s, now) then a + {s} else a;
    assert s !in a;
  }

  lemma VisitAnnounces(st: HubS, s: string, now: int)
    requires Closed(st) && s in st.users
    ensures TopicsOf(Visit(st, s, now).queue) == TopicsOf(st.queue) + if Idle(st, s, now) then ["cleanupUser"] else []
  {
  }

  lemma StaysIdle(st: HubS, r: HubS, s: string, now: int)
    requires Closed(st) && Closed(r) && Spares(st, r) && s in r.users
    ensures s in st.users && Idle(r, s, now) == Idle(st, s, now)
  {
  }

  lemma CleanupsMore(q: seq<string>, k: nat, idle: bool)
    ensures q + Cleanups(k) + (if idle then ["cleanupUser"] else []) == q + Cleanups(k + if idle then 1 else 0)
  {
    if idle {
      assert Cleanups(k) + ["cleanupUser"] == Cleanups(k + 1);
    }
  }

  lemma VisitMoreAnnounces(st: HubS, r: HubS, before: seq<string>, s: string, now: int)
    requires Closed(st) && s !in before && s in st.users
    requires Closed(r) && Spares(st, r) && s in r.users
    requires TopicsOf(r.queue) == TopicsOf(st.queue) + Cleanups(|Removed(st, before, now)|)
    ensures TopicsOf(Visit(r, s, now).queue) == TopicsOf(st.queue) + Cleanups(|Removed(st, before + [s], now)|)
  {
    VisitAnnounces(r, s, now);
    StaysIdle(st, r, s, now);
    RemovedMore(st, before, s, now);
    CleanupsMore(TopicsOf(st.queue), |Removed(st, before, now)|, Idle(st, s, now));
  }

  lemma {:induction false} VisitsAnnounce(st: HubS, order: seq<string>, now: int)
    requires Closed(st) && (forall s :: s in order ==> s in st.users)
    requires forall i, j :: 0 <= i < j < |order| ==> order[i] != order[j]
    ensures TopicsOf(VisitAll(st, order, now).queue) == TopicsOf(st.queue) + Cleanups(|Removed(st, order, now)|)
  {
    if order == [] {
      assert Removed(st, order, now) == {};
    } else {
      var n := |order| - 1;
      assert order == order[..n] + [order[n]] && order[n] !in order[..n];
      VisitsAnnounce(st, order[..n], now);
      NotVisited(st, order[..n], now, order[n]);
      VisitMoreAnnounces(st, VisitAll(st, order[..n], now), order[..n], order[n], now);
    }
  }

  lemma SweepAnnounces(st: HubS, order: seq<string>, now: int)
    requires Closed(st) && Ranges(order, st.users.Keys)
    ensures TopicsOf(Sweep(st, order, now).queue) ==
            TopicsOf(st.queue) + (Cleanups(|Removed(st, order, now)|) + ["userCount", "guestsCount"])
  {
    VisitsAnnounce(st, order, now);
    var r := VisitAll(st, order, now).(loginCount := CountOnline(st, order), guestCount := |st.guests|);
    PubTwiceAnnounces(r, "userCount", "guestsCount");
  }

  lemma PubTwiceAnnounces(st: HubS, t: string, t': string)
    ensures TopicsOf(Pub(Pub(st, t), t').queue) == TopicsOf(st.queue) + [t, t']
  {
    PubAnnounces(st, t);
    PubAnnounces(Pub(st, t), t');
  }

  lemma UnsubSomeQueue(st: HubS, u: User, ts: set<string>)
    requires u in st.people
    ensures UnsubSome(st, u, ts).queue == st.queue
  {
  }

  /** A step publishes on exactly these topics, behind what still waits. */
  lemma StepAnnounces(st: HubS, e: Step)
    requires Defined(st, e)
    ensures TopicsOf(Take(st, e).queue) == TopicsOf(if e.Deliver? then st.queue[1..] else st.queue) + Announced(st, e)
  {
    match e
    case Arrival(c) => PubAnnounces(Arrive(st, c).(guests := st.guests + [c]), "connect");
    case Leave(c) => LeaveAnnounces(st.(pending := st.pending - multiset{c}), c);
    case Login(uid, appId, c, nu) => LoginAnnounces(st, uid, appId, c, nu);
    case Publish(t) => PubAnnounces(st, t);
    case Guard(order, now) => SweepAnnounces(st, order, now);
    case Drop(t, u) => assert Take(st, e).queue == st.queue;
    case DropAll(u) => UnsubSomeQueue(st, u, st.people[u].subTopics);
    case Subscribe(t, u) => assert Take(st, e).queue == st.queue;
    case Unsubscribe(t, u) => assert Take(st, e).queue == st.queue;
    case Deliver(order) => assert Take(st, e).queue == st.queue[1..];
    case _ =>
  }

  /** The topics published on in the first `n` steps. */
  ghost function AnnouncedBy(es: seq<Step>, sts: seq<HubS>, n: nat): seq<string>
    requires IsRun(es, sts) && n < |sts|
  {
    if n == 0 then [] else AnnouncedBy(es, sts, n - 1) + Announced(sts[n - 1], es[n - 1])
  }

  /** What waits is the publications that were not delivered yet, each on its topic. */
  lemma {:induction false} WaitingTopics(es: seq<Step>, sts: seq<HubS>, n: nat)
    requires IsRun(es, sts) && n < |sts|
    ensures Deliveries(es, n) <= |AnnouncedBy(es, sts, n)|
    ensures TopicsOf(sts[n].queue) == AnnouncedBy(es, sts, n)[Deliveries(es, n)..]
  {
    if n == 0 {
    } else {
      WaitingTopics(es, sts, n - 1);
      StepAnnounces(sts[n - 1], es[n - 1]);
      WaitingMore(sts[n - 1].queue, es[n - 1].Deliver?, AnnouncedBy(es, sts, n - 1), Deliveries(es, n - 1),
                  Announced(sts[n - 1], es[n - 1]));
    }
  }

  lemma WaitingMore(queue: seq<TopicMsg>, taken: bool, all: seq<string>, k: nat, more: seq<string>)
    requires k <= |all| && TopicsOf(queue) == all[k..] && (taken ==> queue != [])
    ensures var k' := if taken then k + 1 else k;
            && k' <= |all + more|
            && TopicsOf(if taken then queue[1..] else queue) + more == (all + more)[k'..]
  {
    if taken {
      assert TopicsOf(queue[1..]) == TopicsOf(queue)[1..];
      assert all[k..][1..] == all[k + 1..];
    }
  }

  lemma {:induction false} AnnouncedGrows(es: seq<Step>, sts: seq<HubS>, i: nat, j: nat)
    requires IsRun(es, sts) && i <= j < |sts|
    ensures AnnouncedBy(es, sts, i) <= AnnouncedBy(es, sts, j)
    decreases j
  {
    if i == j {
    } else {
      AnnouncedGrows(es, sts, i, j - 1);
    }
  }

  /** Main result for publications, over any run: the k-th delivery, counting from 0, is of message number k, on the
    * topic of the k-th publication. */
  lemma DeliveredOnItsTopic(es: seq<Step>, sts: seq<HubS>, i: nat)
    requires IsRun(es, sts) && i < |es| && es[i].Deliver?
    ensures var k := Deliveries(es, i); var all := AnnouncedBy(es, sts, |es|);
            k < |all| && sts[i].queue != [] && sts[i].queue[0] == TopicMsg(all[k], k)
  {
    WaitingTopics(es, sts, i);
    DeliveredInOrder(es, sts, i);
    AnnouncedGrows(es, sts, i, |es|);
    assert TopicsOf(sts[i].queue)[0] == AnnouncedBy(es, sts, i)[Deliveries(es, i)];
  }
}
