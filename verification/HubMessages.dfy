/** Who gets which message, how often, and in which order. */
module HubMessages {
  import opened HubState
  import opened HubRoster

  /** One more message for an open client; nothing for a closed one. */
  function Given(x: ClientS, m: Msg): ClientS {
    if x.closed then x else x.(outbox := x.outbox + [m])
  }

  /** Sending to a list without repetition: one copy for each open client on it, one disconnect reported for each
    * closed one, nothing for anybody else. */
  lemma {:induction false} SendAllOnce(st: HubS, cs: seq<Client>, m: Msg, c: Client)
    requires (forall d :: d in cs ==> d in st.clients) && Distinct(cs) && c in st.clients
    ensures var r := SendAll(st, cs, m);
            && r.clients[c] == (if c in cs then Given(st.clients[c], m) else st.clients[c])
            && r.pending[c] == st.pending[c] + (if c in cs && st.clients[c].closed then 1 else 0)
    decreases |cs|
  {
    if cs == [] {
    } else {
      var n := |cs| - 1;
      SendAllOnce(st, cs[..n], m, c);
      SendAllOnce(st, cs[..n], m, cs[n]);
      assert cs == cs[..n] + [cs[n]] && cs[n] !in cs[..n];
      SendOne(SendAll(st, cs[..n], m), cs[n], m, c);
    }
  }

  lemma SendOne(st: HubS, d: Client, m: Msg, c: Client)
    requires d in st.clients && c in st.clients
    ensures var r := Send(st, d, m);
            && r.clients[c] == (if c == d then Given(st.clients[c], m) else st.clients[c])
            && r.pending[c] == st.pending[c] + (if c == d && st.clients[c].closed then 1 else 0)
  {
  }

  /** The client is on the list of a registered user whose name is in `names`. */
  ghost predicate Reached(st: HubS, names: set<string>, c: Client) {
    && c in st.clients && st.clients[c].user != null && ListedBy(st, st.clients[c].user, c)
    && st.people[st.clients[c].user].suid in names
  }

  lemma {:induction false} ClientsOfDistinct(st: HubS, order: seq<string>, names: set<string>)
    requires Roster(st) && Ranges(order, names)
    ensures var cs := ClientsOf(st, order);
            Distinct(cs) && forall c :: c in cs <==> Reached(st, names, c)
    decreases |order|
  {
    if order == [] {
    } else {
      var n := |order| - 1;
      var s := order[n];
      assert order == order[..n] + [s] && s !in order[..n];
      ClientsOfDistinct(st, order[..n], names - {s});
      var front := ClientsOf(st, order[..n]);
      var back := UserClients(st, s);
      forall c ensures c in back <==> Reached(st, {s}, c) {
        BackIsReached(st, s, c);
      }
      if s in st.users {
        assert RosterOf(st, st.users[s]);
      }
      assert Distinct(back);
      assert forall c :: Reached(st, names, c) <==> Reached(st, names - {s}, c) || Reached(st, {s}, c);
      DistinctConcat(front, back);
    }
  }

  lemma BackIsReached(st: HubS, s: string, c: Client)
    requires Roster(st)
    ensures c in UserClients(st, s) <==> Reached(st, {s}, c)
  {
    if s in st.users {
      assert RosterOf(st, st.users[s]);
    }
    if c in st.clients && st.clients[c].user != null {
      assert RosterOf(st, st.clients[c].user);
    }
  }

  lemma DistinctConcat(a: seq<Client>, b: seq<Client>)
    requires Distinct(a) && Distinct(b) && forall c :: c in a ==> c !in b
    ensures Distinct(a + b)
  {
    forall i, j | 0 <= i < j < |a + b| ensures (a + b)[i] != (a + b)[j] {
      if i < |a| <= j {
        assert a[i] in a && b[j - |a|] in b;
      }
    }
  }

  /** Main result for Broadcast, in whatever order the users are ranged over: every guest and every client of every
    * registered user gets exactly one copy if it is open, and is reported once if it is closed; nothing else moves. */
  lemma BroadcastOnce(st: HubS, body: int, order: seq<string>, c: Client)
    requires Roster(st) && Ranges(order, st.users.Keys) && c in st.clients
    ensures var r := Broadcast(st, body, order);
            && r.clients[c] == (if Listed(st, c) then Given(st.clients[c], Cast(body)) else st.clients[c])
            && r.pending[c] == st.pending[c] + (if Listed(st, c) && st.clients[c].closed then 1 else 0)
            && r == st.(clients := r.clients, pending := r.pending)
  {
    var cs := ClientsOf(st, order);
    ClientsOfDistinct(st, order, st.users.Keys);
    DistinctConcat(st.guests, cs);
    SendAllOnce(st, st.guests + cs, Cast(body), c);
    ReachedByAll(st, c);
  }

  lemma ReachedByAll(st: HubS, c: Client)
    requires Roster(st) && c in st.clients
    ensures Listed(st, c) <==> c in st.guests || Reached(st, st.users.Keys, c)
  {
    if ListedByAny(st, c) {
      var u :| u in st.people && ListedBy(st, u, c);
      assert RosterOf(st, u);
    }
  }

  /** The clients that a message published on `t` is for, at this moment. */
  ghost predicate Hears(st: HubS, t: string, c: Client) {
    t in st.topics && Reached(st, st.topics[t], c)
  }

  /** Main result for one turn of the drain, in whatever order the subscribers are ranged over: the oldest message
    * leaves the queue, and exactly one copy of it goes to every open client of every user subscribed now. */
  lemma DrainOnce(st: HubS, order: seq<string>, c: Client)
    requires Roster(st) && st.queue != [] && c in st.clients
    requires st.queue[0].topic in st.topics ==> Ranges(order, st.topics[st.queue[0].topic])
    ensures var r := Drain(st, order); var m := st.queue[0];
            && r.queue == st.queue[1..] && r.published == st.published
            && r.clients[c] == (if Hears(st, m.topic, c) then Given(st.clients[c], Topical(m)) else st.clients[c])
            && r.pending[c] == st.pending[c] + (if Hears(st, m.topic, c) && st.clients[c].closed then 1 else 0)
            && r == st.(queue := r.queue, clients := r.clients, pending := r.pending)
  {
    var m := st.queue[0];
    var s := st.(queue := st.queue[1..]);
    if m.topic in st.topics {
      ClientsOfDistinct(st, order, st.topics[m.topic]);
      SameClientsOf(st, s, order);
      SendAllOnce(s, ClientsOf(s, order), Topical(m), c);
    }
  }

  /** Main result for responses and direct messages: the connection, every client of the user, or its client of the app
    * gets exactly one copy if it is open, and is reported once if it is closed; nothing else moves. */
  lemma SendToOnce(st: HubS, to: Addressee, body: int, c: Client)
    requires Roster(st) && KnownTo(st, to) && c in st.clients
    ensures var r := SendTo(st, to, body); var cs := Addressed(st, to);
            && r.clients[c] == (if c in cs then Given(st.clients[c], Direct(body)) else st.clients[c])
            && r.pending[c] == st.pending[c] + (if c in cs && st.clients[c].closed then 1 else 0)
            && r == st.(clients := r.clients, pending := r.pending)
    ensures var cs := Addressed(st, to);
            match to
            case Own(d) => c in cs <==> c == d
            case Whole(u) => c in cs <==> ListedBy(st, u, c)
            case App(u, appId) => c in cs <==> ListedBy(st, u, c) && st.clients[c].appId == appId
  {
    var cs := Addressed(st, to);
    if !to.Own? {
      assert RosterOf(st, to.u);
    }
    SendAllOnce(st, cs, Direct(body), c);
    if to.App? {
      AppIsFirst(st.clients, st.people[to.u].appClients, to.appId, c);
    }
  }

  /** No two clients of a user share an app, so the first of an app is the only one. */
  lemma AppIsFirst(m: map<Client, ClientS>, cs: seq<Client>, appId: string, c: Client)
    requires (forall d :: d in cs ==> d in m) && c in m
    requires forall i, j :: 0 <= i < j < |cs| ==> m[cs[i]].appId != m[cs[j]].appId
    ensures var i := AppIndex(m, cs, appId); c in cs && m[c].appId == appId <==> 0 <= i && cs[i] == c
  {
    if c in cs && m[c].appId == appId {
      var k :| 0 <= k < |cs| && cs[k] == c;
      assert AppIndex(m, cs, appId) == k;
    }
  }

  /** Messages change no list. */
  lemma {:induction false} SendAllKeepsRoster(st: HubS, cs: seq<Client>, m: Msg)
    requires Roster(st) && forall c :: c in cs ==> c in st.clients
    ensures Roster(SendAll(st, cs, m))
    decreases |cs|
  {
    if cs == [] {
    } else {
      var n := |cs| - 1;
      SendAllKeepsRoster(st, cs[..n], m);
      SendKeepsRoster(SendAll(st, cs[..n], m), cs[n], m);
    }
  }

  lemma SendKeepsRoster(st: HubS, c: Client, m: Msg)
    requires Roster(st) && c in st.clients
    ensures Roster(Send(st, c, m))
  {
    var r := Send(st, c, m);
    forall u | u in r.people ensures RosterOf(r, u) {
      assert RosterOf(st, u);
    }
  }

  // ----- publication order

  /** The numbers of the topic messages in an outbox, in order of arrival. */
  function Numbers(box: seq<Msg>): seq<nat> {
    if box == [] then []
    else
      var m := box[|box| - 1];
      Numbers(box[..|box| - 1]) + if m.Topical? then [m.msg.no] else []
  }

  /** Strictly increasing, and below `n`. */
  ghost predicate Ascending(xs: seq<nat>, n: int) {
    (forall i, j :: 0 <= i < j < |xs| ==> xs[i] < xs[j]) && forall i :: 0 <= i < |xs| ==> xs[i] < n
  }

  /** The queue holds the last messages published, oldest first. */
  ghost predicate QueueInOrder(st: HubS) {
    |st.queue| <= st.published && forall i :: 0 <= i < |st.queue| ==> st.queue[i].no == st.published - |st.queue| + i
  }

  /** What a client has received is from before those, in the order of publication, no message twice. */
  ghost predicate InPublishOrder(st: HubS) {
    && QueueInOrder(st)
    && (forall c :: c in st.clients ==> Ascending(Numbers(st.clients[c].outbox), st.published - |st.queue|))
  }

  lemma NumbersOneMore(box: seq<Msg>, m: Msg)
    ensures Numbers(box + [m]) == Numbers(box) + if m.Topical? then [m.msg.no] else []
  {
    assert (box + [m])[..|box|] == box;
  }

  lemma AscendingOneMore(xs: seq<nat>, n: nat)
    requires Ascending(xs, n)
    ensures Ascending(xs, n + 1) && Ascending(xs + [n], n + 1)
  {
  }

  /** One more message, of number `n`, for a client that has received smaller ones. */
  lemma GivenAscends(x: ClientS, m: TopicMsg, n: nat)
    requires Ascending(Numbers(x.outbox), n) && m.no == n
    ensures Ascending(Numbers(x.outbox), n + 1) && Ascending(Numbers(Given(x, Topical(m)).outbox), n + 1)
  {
    NumbersOneMore(x.outbox, Topical(m));
    AscendingOneMore(Numbers(x.outbox), n);
  }

  /** The message that leaves the queue has a larger number than all received before. */
  lemma DrainAscends(st: HubS, order: seq<string>, c: Client)
    requires Roster(st) && InPublishOrder(st) && st.queue != [] && c in st.clients
    requires st.queue[0].topic in st.topics ==> Ranges(order, st.topics[st.queue[0].topic])
    ensures Ascending(Numbers(Drain(st, order).clients[c].outbox), st.published - |st.queue| + 1)
  {
    DrainOnce(st, order, c);
    GivenAscends(st.clients[c], st.queue[0], st.published - |st.queue|);
  }

  lemma DrainInOrder(st: HubS, order: seq<string>)
    requires Roster(st) && InPublishOrder(st) && st.queue != []
    requires st.queue[0].topic in st.topics ==> Ranges(order, st.topics[st.queue[0].topic])
    ensures InPublishOrder(Drain(st, order))
  {
    var r := Drain(st, order);
    assert r.queue == st.queue[1..] && r.published == st.published && r.clients.Keys == st.clients.Keys;
    forall c | c in r.clients ensures Ascending(Numbers(r.clients[c].outbox), r.published - |r.queue|) {
      DrainAscends(st, order, c);
    }
  }

  /** A message of no topic adds no number. */
  lemma {:induction false} SendAllNumbers(st: HubS, cs: seq<Client>, m: Msg, c: Client)
    requires (forall d :: d in cs ==> d in st.clients) && !m.Topical? && c in st.clients
    ensures Numbers(SendAll(st, cs, m).clients[c].outbox) == Numbers(st.clients[c].outbox)
    decreases |cs|
  {
    if cs == [] {
    } else {
      var n := |cs| - 1;
      SendAllNumbers(st, cs[..n], m, c);
      SendOne(SendAll(st, cs[..n], m), cs[n], m, c);
      NumbersOneMore(SendAll(st, cs[..n], m).clients[c].outbox, m);
    }
  }

  lemma SendAllInOrder(st: HubS, cs: seq<Client>, m: Msg)
    requires InPublishOrder(st) && (forall d :: d in cs ==> d in st.clients) && !m.Topical?
    ensures InPublishOrder(SendAll(st, cs, m))
  {
    var r := SendAll(st, cs, m);
    assert r.queue == st.queue && r.published == st.published && r.clients.Keys == st.clients.Keys;
    forall c | c in r.clients ensures Ascending(Numbers(r.clients[c].outbox), r.published - |r.queue|) {
      assert Ascending(Numbers(st.clients[c].outbox), st.published - |st.queue|);
      SendAllNumbers(st, cs, m, c);
    }
  }
}
