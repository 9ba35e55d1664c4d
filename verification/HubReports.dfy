/** What waits on the Disconnect channel, and how long a heartbeat keeps its user registered. */
module HubReports {
  import opened HubState
  import opened HubRoster
  import opened HubTopics
  import opened HubMessages
  import opened HubRuns
  import opened HubOpen
  import opened HubEffects

  /** How often a step reports a client: its reader or writer has ended, a login has taken its place, or a message
    * was sent to it when it was closed. */
  ghost function Reported(st: HubS, e: Step, d: Client): nat
    requires Defined(st, e)
  {
    match e
    case Report(c) => if c == d then 1 else 0
    case Login(uid, appId, c, _) => if GivesWay(st, uid, appId, c, d) then 1 else 0
    case _ => if d in st.clients && st.clients[d].closed then |Sent(st, e, d)| else 0
  }

  /** And only its leave takes it off. */
  ghost predicate Waits(st: HubS, e: Step, r: HubS, d: Client)
    requires Defined(st, e)
  {
    r.pending[d] == st.pending[d] + Reported(st, e, d) - if Leaves(e, d) then 1 else 0
  }

  lemma StepReports(st: HubS, e: Step, d: Client)
    requires Roster(st) && Defined(st, e)
    ensures Waits(st, e, Take(st, e), d)
  {
    match e
    case Leave(c) => LeaveWaits(st, e, d);
    case Login(uid, appId, c, nu) => LoginReports(st, uid, appId, c, nu, d);
    case Guard(order, now) => GuardWaits(st, e, d);
    case Deliver(order) => DeliverWaits(st, e, d);
    case Cry(body, order) => CryWaits(st, e, d);
    case Tell(to, body) => TellWaits(st, e, d);
    case _ => OtherWaits(st, e, d);
  }

  lemma LeaveWaits(st: HubS, e: Step, d: Client)
    requires Defined(st, e) && e.Leave?
    ensures Waits(st, e, Take(st, e), d)
  {
    LeavePending(st.(pending := st.pending - multiset{e.c}), e.c);
  }

  lemma LeavePending(st: HubS, c: Client)
    requires Closed(st) && c in st.clients
    ensures Disconnect(st, c).pending == st.pending
  {
  }

  lemma {:induction false} VisitsPending(st: HubS, order: seq<string>, now: int)
    requires Closed(st)
    ensures VisitAll(st, order, now).pending == st.pending
  {
    if order == [] {
    } else {
      VisitsPending(st, order[..|order| - 1], now);
    }
  }

  lemma GuardWaits(st: HubS, e: Step, d: Client)
    requires Defined(st, e) && e.Guard?
    ensures Waits(st, e, Take(st, e), d)
  {
    VisitsPending(st, e.order, e.now);
  }

  lemma {:induction false} SendAllPending(st: HubS, cs: seq<Client>, m: Msg, d: Client)
    requires (forall c :: c in cs ==> c in st.clients) && d !in st.clients
    ensures SendAll(st, cs, m).pending[d] == st.pending[d]
    decreases |cs|
  {
    if cs == [] {
    } else {
      var n := |cs| - 1;
      SendAllPending(st, cs[..n], m, d);
      assert cs[n] in cs;
    }
  }

  lemma DeliverWaits(st: HubS, e: Step, d: Client)
    requires Roster(st) && Defined(st, e) && e.Deliver?
    ensures Waits(st, e, Take(st, e), d)
  {
    if d in st.clients {
      DrainOnce(st, e.order, d);
    } else if st.queue[0].topic in st.topics {
      var s := st.(queue := st.queue[1..]);
      SendAllPending(s, ClientsOf(s, e.order), Topical(st.queue[0]), d);
    }
  }

  lemma CryWaits(st: HubS, e: Step, d: Client)
    requires Roster(st) && Defined(st, e) && e.Cry?
    ensures Waits(st, e, Take(st, e), d)
  {
    if d in st.clients {
      BroadcastOnce(st, e.body, e.order, d);
    } else {
      SendAllPending(st, st.guests + ClientsOf(st, e.order), Cast(e.body), d);
    }
  }

  lemma TellWaits(st: HubS, e: Step, d: Client)
    requires Roster(st) && Defined(st, e) && e.Tell?
    ensures Waits(st, e, Take(st, e), d)
  {
    if d in st.clients {
      SendToOnce(st, e.to, e.body, d);
    } else {
      SendAllPending(st, Addressed(st, e.to), Direct(e.body), d);
    }
  }

  lemma OtherWaits(st: HubS, e: Step, d: Client)
    requires Defined(st, e) && Silent(e) && !e.Leave? && !e.Login? && !e.Guard?
    ensures Waits(st, e, Take(st, e), d)
  {
    match e
    case Drop(t, u) => SameUnsubTopic(st, t, u);
    case _ =>
  }

  // ----- over runs

  function LeavesOf(es: seq<Step>, n: nat, d: Client): nat
    requires n <= |es|
  {
    if n == 0 then 0 else LeavesOf(es, n - 1, d) + if Leaves(es[n - 1], d) then 1 else 0
  }

  ghost function ReportsOf(es: seq<Step>, sts: seq<HubS>, n: nat, d: Client): nat
    requires IsRun(es, sts) && n < |sts|
  {
    if n == 0 then 0 else ReportsOf(es, sts, n - 1, d) + Reported(sts[n - 1], es[n - 1], d)
  }

  /** Main result for the Disconnect channel: in a run whose logins fit, every report of a client is handled once or
    * still waits. */
  lemma {:induction false} ReportsAreKept(es: seq<Step>, sts: seq<HubS>, n: nat, d: Client)
    requires IsRun(es, sts) && n < |sts| && LoginsFit(es, sts, n)
    ensures sts[n].pending[d] + LeavesOf(es, n, d) == ReportsOf(es, sts, n, d)
  {
    if n == 0 {
    } else {
      LoginsFitMore(es, sts, n);
      ReportsAreKept(es, sts, n - 1, d);
      FittingRunIsSound(es, sts, n - 1);
      StepReports(sts[n - 1], es[n - 1], d);
    }
  }

  // ----- heartbeats

  /** The user is registered, and its last heartbeat is not before this time. */
  ghost predicate Alive(st: HubS, u: User, since: int) {
    Registered(st, u) && st.people[u].lastHeartbeat >= since
  }

  /** The step is no guard that runs 300 seconds after this time, and no heartbeat of the user that sets it back. */
  predicate KeepsAlive(e: Step, u: User, since: int) {
    && (e.Guard? ==> e.now < since + 300)
    && (e.Beat? && e.u == u ==> e.now >= since)
  }

  lemma StepKeepsAlive(st: HubS, e: Step, u: User, since: int)
    requires Roster(st) && Defined(st, e) && Alive(st, u, since) && KeepsAlive(e, u, since)
    ensures Alive(Take(st, e), u, since)
  {
    UsersChange(st, e);
    PeopleChange(st, e, u);
  }

  /** Main result for heartbeats: after one at `since`, no guard that runs less than 300 seconds later removes the user,
    * whatever happens in between. */
  lemma {:induction false} BeatKeepsUser(es: seq<Step>, sts: seq<HubS>, i: nat, j: nat, u: User, since: int)
    requires IsRun(es, sts) && i < j < |sts| && LoginsFit(es, sts, j)
    requires es[i] == Beat(u, since) && Registered(sts[i], u)
    requires forall k :: i < k < j ==> KeepsAlive(es[k], u, since)
    ensures Alive(sts[j], u, since)
    decreases j
  {
    LoginsFitMore(es, sts, j);
    FittingRunIsSound(es, sts, j - 1);
    if j == i + 1 {
      UsersChange(sts[i], es[i]);
      PeopleChange(sts[i], es[i], u);
    } else {
      BeatKeepsUser(es, sts, i, j - 1, u, since);
      StepKeepsAlive(sts[j - 1], es[j - 1], u, since);
    }
  }
}
