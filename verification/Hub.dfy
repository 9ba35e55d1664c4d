/** The hub as shared mutable objects that point at each other: clients, users and topics are changed in place, by
  * methods that follow the steps of HubState. The topics and the queue of the PubSub object are fields here. */
module Hub {
  import opened HubState

  class Hubc {
    var guests: seq<Client>
    var users: map<string, User>
    var loginCount: nat
    var guestCount: nat
    var topics: map<string, Topic>
    var queue: seq<TopicMsg>
    /** What waits on the Disconnect channel. */
    var leaving: multiset<Client>

    /** The number of messages published so far, which names the next one. */
    var published: nat

    /** What the client, user and topic objects hold. */
    ghost var cs: map<Client, ClientS>
    ghost var ps: map<User, UserS>
    ghost var ts: map<string, set<string>>

    /** The state the objects stand for. */
    ghost function View(): HubS
      reads this
    {
      HubS(guests, users, cs, ps, ts, queue, published, leaving, loginCount, guestCount)
    }

    ghost predicate ClientsOk()
      reads `cs, cs.Keys
    {
      forall c :: c in cs ==> c.Data() == cs[c]
    }

    ghost predicate PeopleOk()
      reads `ps, ps.Keys
    {
      forall u :: u in ps ==> u.Data() == ps[u]
    }

    ghost predicate TopicsOk()
      reads `topics, `ts, topics.Values
    {
      topics.Keys == ts.Keys && forall t :: t in topics ==> topics[t].id == t && topics[t].subUsers == ts[t]
    }

    /** A user's map of topics points at the topics of the hub. */
    ghost predicate LinksOk()
      reads `ps, `topics, ps.Keys
    {
      forall u, t {:trigger u.subTopics[t]} :: u in ps && t in u.subTopics ==>
        t in topics && u.subTopics[t] == topics[t]
    }

    ghost predicate Valid()
      reads this, cs.Keys, ps.Keys, topics.Values
    {
      ClientsOk() && PeopleOk() && TopicsOk() && LinksOk() && Known(guests, users, cs, ps)
    }

    constructor ()
      ensures Valid() && View() == START
    {
      guests, users, loginCount, guestCount := [], map[], 0, 0;
      topics, queue, leaving := map[], [], multiset{};
      cs, ps, ts, published := map[], map[], map[], 0;
    }

    // ----- one object at a time

    /** A client object has changed. */
    ghost method NoteClient(c: Client)
      requires c in cs && forall d :: d in cs && d != c ==> d.Data() == cs[d]
      modifies `cs
      ensures ClientsOk() && cs == old(cs)[c := c.Data()]
    {
      cs := cs[c := c.Data()];
    }

    /** A user object has changed. */
    ghost method NoteUser(u: User)
      requires u in ps && forall v :: v in ps && v != u ==> v.Data() == ps[v]
      modifies `ps
      ensures PeopleOk() && ps == old(ps)[u := u.Data()]
    {
      ps := ps[u := u.Data()];
    }

    method LoginClient(c: Client, u: User, appId: string)
      requires Valid() && c in cs && u in ps
      modifies c`user, c`appId, c`isLogin, `cs
      ensures Valid()
      ensures View() == old(View()).(clients := old(cs)[c := old(cs)[c].(user := u, appId := appId, isLogin := true)])
    {
      c.Login(u, appId);
      NoteClient(c);
    }

    method CloseClient(c: Client)
      requires Valid() && c in cs
      modifies c`closed, `cs
      ensures Valid() && View() == Close(old(View()), c)
    {
      c.Close();
      NoteClient(c);
    }

    /** `Client.SendMsg`. */
    method SendMsg(c: Client, m: Msg)
      requires Valid() && c in cs
      modifies c`outbox, `cs, `leaving
      ensures Valid() && View() == Send(old(View()), c, m)
    {
      if c.closed {
        leaving := leaving + multiset{c};
      } else {
        c.Put(m);
        NoteClient(c);
      }
    }

    method SetAppClients(u: User, list: seq<Client>)
      requires Valid() && u in ps && forall c :: c in list ==> c in cs
      modifies u`appClients, `ps
      ensures Valid() && View() == SetClients(old(View()), u, list)
    {
      u.SetClients(list);
      NoteUser(u);
    }

    /** The heartbeat of a connection, which is its user's too. */
    method Heartbeat(u: User, now: int)
      requires Valid() && u in ps
      modifies u`lastHeartbeat, `ps
      ensures Valid() && View() == HubState.Heartbeat(old(View()), u, now)
    {
      u.Beat(now);
      NoteUser(u);
    }

    method SetSubTopics(u: User, m: map<string, Topic>)
      requires Valid() && u in ps && forall t :: t in m ==> t in topics && m[t] == topics[t]
      modifies u`subTopics, `ps
      ensures Valid() && View() == old(View()).(people := old(ps)[u := old(ps)[u].(subTopics := m.Keys)])
    {
      u.SetTopics(m);
      NoteUser(u);
    }

    /** `User.AddSubTopic`. */
    method AddSubTopic(u: User, t: string)
      requires Valid() && u in ps && t in topics
      modifies u`subTopics, `ps
      ensures Valid()
      ensures View() == old(View()).(people := old(ps)[u := old(ps)[u].(subTopics := old(ps)[u].subTopics + {t})])
    {
      assert u.Data() == ps[u];
      var m := u.subTopics[t := topics[t]];
      assert m.Keys == ps[u].subTopics + {t};
      SetSubTopics(u, m);
    }

    method DropSubTopic(u: User, t: string)
      requires Valid() && u in ps
      modifies u`subTopics, `ps
      ensures Valid()
      ensures View() == old(View()).(people := old(ps)[u := old(ps)[u].(subTopics := old(ps)[u].subTopics - {t})])
    {
      assert u.Data() == ps[u];
      var m := u.subTopics - {t};
      assert m.Keys == ps[u].subTopics - {t};
      SetSubTopics(u, m);
    }

    method SetSubUsers(topic: Topic, s: set<string>)
      requires Valid() && topic.id in topics && topics[topic.id] == topic
      modifies topic`subUsers, `ts
      ensures Valid() && View() == old(View()).(topics := old(ts)[topic.id := s])
    {
      topic.subUsers := s;
      ts := ts[topic.id := s];
    }

    /** `initTopic`: the topic, which is created if it is missing. */
    method InitTopic(t: string) returns (topic: Topic)
      requires Valid()
      modifies `topics, `ts
      ensures Valid() && t in topics && topic == topics[t] && View() == HubState.InitTopic(old(View()), t)
      ensures topics == old(topics)[t := topic] && if t in old(topics) then topic == old(topics[t]) else fresh(topic)
    {
      if t in topics {
        topic := topics[t];
        assert topics == topics[t := topic];
      } else {
        topic := new Topic(t);
        assert map[t := {}] + ts == ts[t := {}];
        topics := topics[t := topic];
        ts := ts[t := {}];
      }
    }

    // ----- topics

    /** A topic object of before is where it was; any other is new. */
    twostate predicate TopicsGrew()
      reads `topics
    {
      forall t :: t in topics ==> (t in old(topics) && topics[t] == old(topics)[t]) || fresh(topics[t])
    }

    method Pub(t: string)
      requires Valid()
      modifies `topics, `ts, `queue, `published
      ensures Valid() && View() == HubState.Pub(old(View()), t)
      ensures TopicsGrew()
    {
      var topic := InitTopic(t);
      Enqueue(t);
    }

    method Enqueue(t: string)
      requires Valid()
      modifies `queue, `published
      ensures Valid()
      ensures View() ==
              old(View()).(queue := old(queue) + [TopicMsg(t, old(published))], published := old(published) + 1)
    {
      queue := queue + [TopicMsg(t, published)];
      published := published + 1;
    }

    method Sub(t: string, u: User)
      requires Valid() && u in ps
      modifies this, u, topics.Values
      ensures Valid() && View() == HubState.Sub(old(View()), t, u)
    {
      var topic := InitTopic(t);
      AddSubTopic(u, t);
      SetSubUsers(topic, topic.subUsers + {u.suid});
    }

    /** `RemoveSubUser`, for a topic that exists. */
    method RemoveSubUser(topic: Topic, suid: string)
      requires Valid() && topic.id in topics && topics[topic.id] == topic
      modifies topic`subUsers, `ts
      ensures Valid() && View() == HubState.RemoveSubUser(old(View()), topic.id, suid)
    {
      SetSubUsers(topic, topic.subUsers - {suid});
    }

    method UnsubTopic(t: string, u: User)
      requires Valid() && u in ps
      modifies `ts, `ps, u, topics.Values
      ensures Valid() && View() == HubState.UnsubTopic(old(View()), t, u)
    {
      assert u.Data() == ps[u];
      if t in u.subTopics {
        RemoveSubUser(u.subTopics[t], u.suid);
        DropSubTopic(u, t);
      }
    }

    method Unsub(t: string, u: User)
      requires Valid() && u in ps
      modifies `ts, `ps, u, topics.Values
      ensures Valid() && View() == HubState.Unsub(old(View()), t, u)
    {
      if t in topics {
        RemoveSubUser(topics[t], u.suid);
        UnsubTopic(t, u);
      }
    }

    // ----- clients

    method Connect(c: Client)
      requires Valid() && c in cs
      modifies `guests, `topics, `ts, `queue, `published
      ensures Valid() && View() == HubState.Connect(old(View()), c)
    {
      guests := guests + [c];
      Pub("connect");
    }

    /** A new connection: its client is made and sent to the hub. */
    method Accept(conn: int) returns (c: Client)
      requires Valid()
      modifies `cs, `guests, `topics, `ts, `queue, `published
      ensures fresh(c) && c.conn == conn && c !in old(cs)
      ensures Valid() && View() == HubState.Connect(Arrive(old(View()), c), c)
    {
      c := new Client(conn);
      cs := cs[c := c.Data()];
      Connect(c);
    }

    method RemoveGuest(c: Client)
      requires Valid()
      modifies `guests
      ensures Valid() && View() == HubState.RemoveGuest(old(View()), c)
    {
      var i := 0;
      while i < |guests| && guests[i] != c
        invariant i <= |guests| && guests == old(guests)
        invariant IndexOf(guests, c) == IndexOf(guests, c, i)
      {
        i := i + 1;
      }
      if i < |guests| {
        guests := guests[..i] + guests[i + 1..];
      }
    }

    /** The search loop of `appLogout`. */
    method FindConn(list: seq<Client>, appId: string, c: Client) returns (i: int)
      requires ClientsOk() && c in cs && forall d :: d in list ==> d in cs
      ensures i == ConnIndex(cs, list, appId, cs[c].conn)
    {
      assert c.Data() == cs[c];
      for k := 0 to |list|
        invariant ConnIndex(cs, list, appId, c.conn) == ConnIndex(cs, list, appId, c.conn, k)
      {
        assert list[k].Data() == cs[list[k]];
        if list[k].appId == appId && c.conn == list[k].conn {
          return k;
        }
      }
      return -1;
    }

    method AppLogout(u: User, appId: string, c: Client)
      requires Valid() && u in ps && c in cs
      modifies this, u, c
      ensures Valid() && View() == HubState.AppLogout(old(View()), u, appId, c)
      ensures TopicsGrew()
    {
      assert u.Data() == ps[u];
      var i := FindConn(u.appClients, appId, c);
      if i > -1 {
        Remove(u, i, c);
      }
      Pub("logout");
    }

    /** Take the client at index `i` off the list, and close `c`. */
    method Remove(u: User, i: nat, c: Client)
      requires Valid() && u in ps && c in cs && i < |ps[u].appClients|
      modifies `ps, `cs, u`appClients, c`closed
      ensures Valid() && View() == Close(SetClients(old(View()), u, DeleteAt(old(ps)[u].appClients, i)), c)
    {
      assert u.Data() == ps[u];
      var list := u.appClients[..i] + u.appClients[i + 1..];
      assert forall d :: d in list ==> d in u.appClients;
      SetAppClients(u, list);
      CloseClient(c);
    }

    /** One message of the Disconnect channel. */
    method Disconnect(c: Client)
      requires Valid() && c in cs
      modifies this, c, ps.Keys
      ensures Valid() && View() == HubState.Disconnect(old(View()), c)
    {
      assert c.Data() == cs[c];
      Pub("disconnect");
      if c.user != null {
        AppLogout(c.user, c.appId, c);
      } else {
        CloseClient(c);
        RemoveGuest(c);
      }
    }

    /** The search loop of `appLogin`. */
    method FindApp(list: seq<Client>, appId: string) returns (i: int)
      requires ClientsOk() && forall d :: d in list ==> d in cs
      ensures i == AppIndex(cs, list, appId)
    {
      for k := 0 to |list|
        invariant AppIndex(cs, list, appId) == AppIndex(cs, list, appId, k)
      {
        assert list[k].Data() == cs[list[k]];
        if list[k].appId == appId {
          return k;
        }
      }
      return -1;
    }

    method AppLogin(u: User, appId: string, c: Client)
      requires Valid() && u in ps && c in cs
      modifies this, u, c
      ensures Valid() && View() == HubState.AppLogin(old(View()), u, appId, c)
    {
      Switch(u, appId, c);
      Pub("login");
    }

    /** `appLogin` up to its announcement. */
    method Switch(u: User, appId: string, c: Client)
      requires Valid() && u in ps && c in cs
      modifies `ps, `cs, `leaving, u`appClients, c`user, c`appId, c`isLogin
      ensures Valid()
      ensures var list := old(ps)[u].appClients;
              var s := SetClients(old(View()), u, LoginList(old(cs), list, appId, c));
              View() == s.(clients := old(cs)[c := old(cs)[c].(user := u, appId := appId, isLogin := true)],
                           pending := old(leaving) + Replaced(old(cs), list, appId, c))
    {
      assert u.Data() == ps[u];
      var list, gone := Successors(u.appClients, appId, c);
      LoginClient(c, u, appId);
      SetAppClients(u, list);
      Dismiss(gone);
    }

    /** Send these clients to the Disconnect channel. */
    method Dismiss(gone: multiset<Client>)
      requires Valid()
      modifies `leaving
      ensures Valid() && View() == old(View()).(pending := old(leaving) + gone)
    {
      leaving := leaving + gone;
    }

    /** The list after the login of `c`, and the connection that gives way. */
    method Successors(list: seq<Client>, appId: string, c: Client) returns (next: seq<Client>, gone: multiset<Client>)
      requires ClientsOk() && c in cs && forall d :: d in list ==> d in cs
      ensures next == LoginList(cs, list, appId, c) && gone == Replaced(cs, list, appId, c)
      ensures forall d :: d in next ==> d in cs
    {
      var i := FindApp(list, appId);
      assert c.Data() == cs[c] && (0 <= i ==> list[i].Data() == cs[list[i]]);
      if i < 0 {
        return list + [c], multiset{};
      }
      if list[i].conn == c.conn {
        return list, multiset{};
      }
      next, gone := list[..i] + list[i + 1..] + [c], multiset{list[i]};
    }

    /** The user registered under this name, or a new user object. */
    method UserOrNew(uid: string) returns (u: User)
      requires Valid()
      modifies `ps
      ensures Valid() && u in ps && (if uid in users then u == users[uid] else fresh(u) && u !in old(ps))
      ensures ps == if uid in users then old(ps) else old(ps)[u := UserS(uid, [], {}, 0)]
    {
      if uid in users {
        u := users[uid];
      } else {
        u := new User(uid);
        ps := ps[u := u.Data()];
      }
    }

    /** `nu` is the user object the login works on. */
    method UserLogin(uid: string, appId: string, c: Client) returns (ghost nu: User)
      requires Valid() && c in cs
      modifies this, c, ps.Keys
      ensures uid in old(users) || nu !in old(ps)
      ensures Valid() && View() == HubState.UserLogin(old(View()), uid, appId, c, nu)
    {
      var user := UserOrNew(uid);
      nu := user;
      AppLogin(user, appId, c);
      Register(uid, user);
      RemoveGuest(c);
    }

    method Register(uid: string, u: User)
      requires Valid() && u in ps
      modifies `users
      ensures Valid() && View() == old(View()).(users := old(users)[uid := u])
    {
      users := users[uid := u];
    }

    // ----- messages

    /** Put a message into every outbox of a list. */
    method SendEach(list: seq<Client>, m: Msg)
      requires Valid() && forall c :: c in list ==> c in cs
      modifies `cs, `leaving, cs.Keys
      ensures Valid() && View() == SendAll(old(View()), list, m)
    {
      for i := 0 to |list|
        invariant Valid() && cs.Keys == old(cs.Keys)
        invariant View() == SendAll(old(View()), list[..i], m)
      {
        assert list[..i + 1][..i] == list[..i];
        SendMsg(list[i], m);
      }
      assert list[..|list|] == list;
    }

    /** `User.SendMsg` for the registered users among `keys`, in the order the map is ranged over. */
    method SendToUsers(keys: set<string>, m: Msg) returns (ghost order: seq<string>)
      requires Valid()
      modifies `cs, `leaving, cs.Keys
      ensures Ranges(order, keys)
      ensures Valid() && View() == SendAll(old(View()), ClientsOf(old(View()), order), m)
    {
      order := [];
      var todo := keys;
      while todo != {}
        invariant todo <= keys && Ranges(order, keys - todo)
        invariant Valid() && cs.Keys == old(cs.Keys) && users == old(users) && ps == old(ps)
        invariant View() == SendAll(old(View()), ClientsOf(old(View()), order), m)
        decreases todo
      {
        var s :| s in todo;
        SendToUser(s, m);
        RangesOneMore(order, keys, todo, s);
        SendToOneMore(old(View()), order, s, m);
        order, todo := order + [s], todo - {s};
      }
    }

    /** `Hub.User(s).SendMsg`, for a user that may be missing. */
    method SendToUser(s: string, m: Msg)
      requires Valid()
      modifies `cs, `leaving, cs.Keys
      ensures Valid() && View() == SendAll(old(View()), UserClients(old(View()), s), m)
    {
      if s in users {
        assert users[s].Data() == ps[users[s]];
        SendEach(users[s].appClients, m);
      }
    }

    method Broadcast(body: int) returns (ghost order: seq<string>)
      requires Valid()
      modifies `cs, `leaving, cs.Keys
      ensures Ranges(order, users.Keys)
      ensures Valid() && View() == HubState.Broadcast(old(View()), body, order)
    {
      SendEach(guests, Cast(body));
      label afterGuests:
      order := SendToUsers(users.Keys, Cast(body));
      SameClientsOf(old(View()), old@afterGuests(View()), order);
      SendAllTwice(old(View()), guests, ClientsOf(old(View()), order), Cast(body));
    }

    /** `User.AppClient`; the sequence is empty when there is none. */
    method AppClient(u: User, appId: string) returns (found: seq<Client>)
      requires Valid() && u in ps
      ensures found == Addressed(View(), App(u, appId))
    {
      assert u.Data() == ps[u];
      var i := FindApp(u.appClients, appId);
      found := if i < 0 then [] else [u.appClients[i]];
    }

    /** A response to the connection, or a message to a user or its client of one app. */
    method SendTo(to: Addressee, body: int)
      requires Valid() && KnownTo(View(), to)
      modifies `cs, `leaving, cs.Keys
      ensures Valid() && View() == HubState.SendTo(old(View()), to, body)
    {
      match to
      case Own(c) => SendEach([c], Direct(body));
      case Whole(u) =>
        assert u.Data() == ps[u];
        SendEach(u.appClients, Direct(body));
      case App(u, appId) =>
        var found := AppClient(u, appId);
        SendEach(found, Direct(body));
    }

    /** One turn of the loop of `Start`; the functions subscribed to a topic are not modelled. */
    method Drain() returns (ghost order: seq<string>)
      requires Valid() && queue != []
      modifies `queue, `cs, `leaving, cs.Keys
      ensures old(queue)[0].topic in topics ==> Ranges(order, ts[old(queue)[0].topic])
      ensures Valid() && View() == HubState.Drain(old(View()), order)
    {
      var msg := queue[0];
      Dequeue();
      order := [];
      if msg.topic in topics {
        label dequeued:
        order := SendToUsers(topics[msg.topic].subUsers, Topical(msg));
      }
    }

    method Dequeue()
      requires Valid() && queue != []
      modifies `queue
      ensures Valid() && View() == old(View()).(queue := old(queue)[1..])
    {
      queue := queue[1..];
    }

    // ----- the guard

    method UnsubAllTopics(u: User)
      requires Valid() && u in ps
      modifies `ts, `ps, u, topics.Values
      ensures Valid() && View() == UnsubAll(old(View()), u)
    {
      var todo := SubTopicsOf(u);
      UnsubNone(View(), u);
      while todo != {}
        invariant Valid() && todo <= old(ps)[u].subTopics
        invariant View() == UnsubBut(old(View()), u, todo)
        decreases todo
      {
        var t :| t in todo;
        UnsubNext(t, u, old(View()), todo);
        todo := todo - {t};
      }
      UnsubDone(old(View()), u);
    }

    method SubTopicsOf(u: User) returns (r: set<string>)
      requires PeopleOk() && u in ps
      ensures r == ps[u].subTopics
    {
      assert u.Data() == ps[u];
      r := u.subTopics.Keys;
    }

    /** One turn of that loop; `was` is the state before it, `todo` the topics still held. */
    method UnsubNext(t: string, u: User, ghost was: HubS, ghost todo: set<string>)
      requires Valid() && u in was.people && View() == UnsubBut(was, u, todo)
      requires t in todo && todo <= was.people[u].subTopics
      modifies `ts, `ps, u, topics.Values
      ensures Valid() && View() == UnsubBut(was, u, todo - {t})
    {
      UnsubOneMore(was, u, todo, t);
      UnsubTopic(t, u);
    }

    method Unregister(s: string)
      requires Valid()
      modifies `users
      ensures Valid() && View() == old(View()).(users := old(users) - {s})
    {
      users := users - {s};
    }

    /** The body of the guard's loop. */
    method VisitUser(s: string, now: int) returns (online: bool)
      requires Valid() && s in users
      modifies this, users[s], topics.Values
      ensures Valid() && View() == Visit(old(View()), s, now)
      ensures online == (old(ps)[old(users)[s]].appClients != [])
      ensures TopicsGrew()
    {
      var user := users[s];
      assert user.Data() == ps[user];
      online := |user.appClients| > 0;
      if !online && now - user.lastHeartbeat >= CLEANUP_TTL {
        Expire(s, user);
      }
    }

    method Expire(s: string, user: User)
      requires Valid() && user in ps
      modifies this, user, topics.Values
      ensures Valid() && TopicsGrew()
      ensures var r := UnsubAll(old(View()), user); View() == HubState.Pub(r.(users := r.users - {s}), "cleanupUser")
    {
      UnsubAllTopics(user);
      Unregister(s);
      Pub("cleanupUser");
    }

    /** The guard's loop over the users, in the order `order`. */
    method VisitUsers(now: int) returns (userCount: nat, ghost order: seq<string>)
      requires Valid()
      modifies this, ps.Keys, topics.Values
      ensures Ranges(order, old(users).Keys)
      ensures Valid() && View() == VisitAll(old(View()), order, now)
      ensures userCount == CountOnline(old(View()), order)
    {
      userCount, order := 0, [];
      var todo := users.Keys;
      while todo != {}
        invariant todo <= old(users).Keys && Ranges(order, old(users).Keys - todo)
        invariant Valid() && TopicsGrew()
        invariant View() == VisitAll(old(View()), order, now)
        invariant userCount == CountOnline(old(View()), order)
        decreases todo
      {
        var s :| s in todo;
        RangesOneMore(order, old(users).Keys, todo, s);
        var online := VisitNext(s, now, old(View()), order);
        if online {
          userCount := userCount + 1;
        }
        order, todo := order + [s], todo - {s};
      }
    }

    /** One turn of that loop; `was` is the state before it, `order` the users visited so far. */
    method VisitNext(s: string, now: int, ghost was: HubS, ghost order: seq<string>) returns (online: bool)
      requires Valid() && Closed(was) && View() == VisitAll(was, order, now)
      requires s in was.users && s !in order && forall x :: x in order ==> x in was.users
      modifies this, was.users[s], topics.Values
      ensures Valid() && View() == VisitAll(was, order + [s], now)
      ensures CountOnline(was, order + [s]) == CountOnline(was, order) + if online then 1 else 0
      ensures TopicsGrew()
    {
      NotVisited(was, order, now, s);
      VisitOneMore(was, order, s, now);
      assert users[s] == was.users[s];
      online := VisitUser(s, now);
    }

    /** One tick of the guard. */
    method Guard(now: int) returns (ghost order: seq<string>)
      requires Valid()
      modifies this, ps.Keys, topics.Values
      ensures Ranges(order, old(users).Keys)
      ensures Valid() && View() == Sweep(old(View()), order, now)
    {
      var userCount;
      userCount, order := VisitUsers(now);
      SetCounts(userCount, |guests|);
      Pub("userCount");
      Pub("guestsCount");
    }

    method SetCounts(logins: nat, visitors: nat)
      requires Valid()
      modifies `loginCount, `guestCount
      ensures Valid() && View() == old(View()).(loginCount := logins, guestCount := visitors)
    {
      loginCount := logins;
      guestCount := visitors;
    }
  }
}
