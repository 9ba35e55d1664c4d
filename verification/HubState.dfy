/** The hub, its users, clients and topics as one value: what a step reads and writes, keyed by object. */
module HubState {

  class Client {
    const conn: int
    var user: User?
    var appId: string
    var isLogin: bool
    var closed: bool
    /** What was put on the send channel. */
    var outbox: seq<Msg>

    constructor (conn: int)
      ensures this.conn == conn && Data() == ClientS(conn, null, "", false, false, [])
    {
      this.conn := conn;
      user, appId, isLogin, closed, outbox := null, "", false, false, [];
    }

    ghost function Data(): ClientS
      reads this
    {
      ClientS(conn, user, appId, isLogin, closed, outbox)
    }

    method Login(u: User, app: string)
      modifies `user, `appId, `isLogin
      ensures Data() == old(Data()).(user := u, appId := app, isLogin := true)
    {
      user := u;
      appId := app;
      isLogin := true;
    }

    /** Closing twice is harmless. */
    method Close()
      modifies `closed
      ensures Data() == old(Data()).(closed := true)
    {
      if !closed {
        closed := true;
      }
    }

    method Put(m: Msg)
      modifies `outbox
      ensures Data() == old(Data()).(outbox := old(outbox) + [m])
    {
      outbox := outbox + [m];
    }
  }

  class User {
    const suid: string
    var appClients: seq<Client>
    var subTopics: map<string, Topic>
    var lastHeartbeat: int

    constructor (suid: string)
      ensures this.suid == suid && Data() == UserS(suid, [], {}, 0) && subTopics == map[]
    {
      this.suid := suid;
      appClients, subTopics, lastHeartbeat := [], map[], 0;
    }

    ghost function Data(): UserS
      reads this
    {
      UserS(suid, appClients, subTopics.Keys, lastHeartbeat)
    }

    method SetClients(list: seq<Client>)
      modifies `appClients
      ensures Data() == old(Data()).(appClients := list)
    {
      appClients := list;
    }

    method SetTopics(topics: map<string, Topic>)
      modifies `subTopics
      ensures Data() == old(Data()).(subTopics := topics.Keys) && subTopics == topics
    {
      subTopics := topics;
    }

    method Beat(now: int)
      modifies `lastHeartbeat
      ensures Data() == old(Data()).(lastHeartbeat := now)
    {
      lastHeartbeat := now;
    }
  }

  class Topic {
    const id: string
    var subUsers: set<string>

    constructor (id: string)
      ensures this.id == id && subUsers == {}
    {
      this.id := id;
      subUsers := {};
    }
  }

  /** A topic message carries its number in the order of publication. */
  datatype TopicMsg = TopicMsg(topic: string, no: nat)

  datatype Msg = Topical(msg: TopicMsg) | Cast(body: int) | Direct(body: int)

  /** Whom a response or a direct message is for: one connection, all clients of a user, or its client of one app. */
  datatype Addressee = Own(c: Client) | Whole(u: User) | App(u: User, appId: string)

  datatype ClientS = ClientS(conn: int, user: User?, appId: string, isLogin: bool, closed: bool, outbox: seq<Msg>)

  datatype UserS = UserS(suid: string, appClients: seq<Client>, subTopics: set<string>, lastHeartbeat: int)

  /** `pending` are the clients waiting on the Disconnect channel; `published` counts the messages ever published. */
  datatype HubS = HubS(
    guests: seq<Client>,
    users: map<string, User>,
    clients: map<Client, ClientS>,
    people: map<User, UserS>,
    topics: map<string, set<string>>,
    queue: seq<TopicMsg>,
    published: nat,
    pending: multiset<Client>,
    loginCount: nat,
    guestCount: nat)

  const START := HubS([], map[], map[], map[], map[], [], 0, multiset{}, 0, 0)

  /** What a step needs to be defined at all: every object it can reach is known. */
  ghost predicate Closed(st: HubS) {
    Known(st.guests, st.users, st.clients, st.people)
  }

  ghost predicate Known(guests: seq<Client>, users: map<string, User>,
                        clients: map<Client, ClientS>, people: map<User, UserS>)
  {
    && (forall c :: c in guests ==> c in clients)
    && (forall s :: s in users ==> users[s] in people)
    && (forall u, c :: u in people && c in people[u].appClients ==> c in clients)
    && (forall c :: c in clients && clients[c].user != null ==> clients[c].user in people)
  }

  // ----- topics

  function InitTopic(st: HubS, t: string): (r: HubS)
    ensures t in st.topics ==> r == st
  {
    assert t in st.topics ==> map[t := {}] + st.topics == st.topics;
    st.(topics := map[t := {}] + st.topics)
  }

  function Pub(st: HubS, t: string): HubS {
    InitTopic(st, t).(queue := st.queue + [TopicMsg(t, st.published)], published := st.published + 1)
  }

  function Sub(st: HubS, t: string, u: User): HubS
    requires u in st.people
  {
    var s := InitTopic(st, t);
    var p := st.people[u];
    s.(people := st.people[u := p.(subTopics := p.subTopics + {t})], topics := s.topics[t := s.topics[t] + {p.suid}])
  }

  /** `RemoveSubUser` on the topic, if there is one. */
  function RemoveSubUser(st: HubS, t: string, suid: string): HubS {
    st.(topics := if t in st.topics then st.topics[t := st.topics[t] - {suid}] else st.topics)
  }

  function UnsubTopic(st: HubS, t: string, u: User): HubS
    requires u in st.people
  {
    var p := st.people[u];
    if t in p.subTopics then RemoveSubUser(st, t, p.suid).(people := st.people[u := p.(subTopics := p.subTopics - {t})])
    else st
  }

  function Unsub(st: HubS, t: string, u: User): HubS
    requires u in st.people
  {
    if t in st.topics then UnsubTopic(RemoveSubUser(st, t, st.people[u].suid), t, u) else st
  }

  /** Both sides of the user's subscriptions to these topics are cleared. */
  function UnsubSome(st: HubS, u: User, ts: set<string>): HubS
    requires u in st.people
  {
    var p := st.people[u];
    st.(topics := map t | t in st.topics :: if t in ts then st.topics[t] - {p.suid} else st.topics[t],
        people := st.people[u := p.(subTopics := p.subTopics - ts)])
  }

  function UnsubAll(st: HubS, u: User): HubS
    requires u in st.people
  {
    UnsubSome(st, u, st.people[u].subTopics)
  }

  /** All but the topics in `todo` are cleared. */
  function UnsubBut(st: HubS, u: User, todo: set<string>): HubS
    requires u in st.people
  {
    UnsubSome(st, u, st.people[u].subTopics - todo)
  }

  lemma UnsubOneMore(st: HubS, u: User, todo: set<string>, t: string)
    requires u in st.people && t in todo && todo <= st.people[u].subTopics
    ensures UnsubTopic(UnsubBut(st, u, todo), t, u) == UnsubBut(st, u, todo - {t})
  {
    var subs := st.people[u].subTopics;
    var a := UnsubTopic(UnsubBut(st, u, todo), t, u);
    var b := UnsubBut(st, u, todo - {t});
    assert subs - (todo - {t}) == subs - todo + {t};
    assert a.topics == b.topics;
    assert subs - (subs - todo) - {t} == subs - (subs - (todo - {t}));
    assert a.people == b.people;
  }

  lemma UnsubNone(st: HubS, u: User)
    requires u in st.people
    ensures UnsubBut(st, u, st.people[u].subTopics) == st
  {
    var r := UnsubBut(st, u, st.people[u].subTopics);
    var subs := st.people[u].subTopics;
    assert subs - (subs - subs) == subs;
    assert r.topics == st.topics && r.people == st.people;
  }

  lemma UnsubDone(st: HubS, u: User)
    requires u in st.people
    ensures UnsubBut(st, u, {}) == UnsubAll(st, u)
  {
    assert st.people[u].subTopics - {} == st.people[u].subTopics;
  }

  // ----- messages

  /** A message for an open client is queued; sending on a closed channel panics, which is caught and reported as a
    * disconnect. */
  function Send(st: HubS, c: Client, m: Msg): HubS
    requires c in st.clients
  {
    var x := st.clients[c];
    st.(pending := if x.closed then st.pending + multiset{c} else st.pending,
        clients := if x.closed then st.clients else st.clients[c := x.(outbox := x.outbox + [m])])
  }

  function SendAll(st: HubS, cs: seq<Client>, m: Msg): (r: HubS)
    requires forall c :: c in cs ==> c in st.clients
    ensures r.clients.Keys == st.clients.Keys
    ensures r == st.(clients := r.clients, pending := r.pending)
    decreases |cs|
  {
    if cs == [] then st
    else
      var s := SendAll(st, cs[..|cs| - 1], m);
      Send(s, cs[|cs| - 1], m)
  }

  lemma {:induction false} SendAllTwice(st: HubS, a: seq<Client>, b: seq<Client>, m: Msg)
    requires (forall c :: c in a ==> c in st.clients) && forall c :: c in b ==> c in st.clients
    ensures SendAll(SendAll(st, a, m), b, m) == SendAll(st, a + b, m)
    decreases |b|
  {
    if b == [] {
      assert a + b == a;
    } else {
      var n := |b| - 1;
      assert (a + b)[..|a + b| - 1] == a + b[..n];
      SendAllTwice(st, a, b[..n], m);
    }
  }

  /** The clients of the user registered under this name. */
  function UserClients(st: HubS, s: string): (cs: seq<Client>)
    requires Closed(st)
    ensures forall c :: c in cs ==> c in st.clients
  {
    if s in st.users then st.people[st.users[s]].appClients else []
  }

  /** The clients of the registered users among `order`, user by user. */
  function ClientsOf(st: HubS, order: seq<string>): (cs: seq<Client>)
    requires Closed(st)
    ensures forall c :: c in cs ==> c in st.clients
  {
    if order == [] then []
    else ClientsOf(st, order[..|order| - 1]) + UserClients(st, order[|order| - 1])
  }

  lemma SendToOneMore(st: HubS, order: seq<string>, s: string, m: Msg)
    requires Closed(st)
    ensures SendAll(SendAll(st, ClientsOf(st, order), m), UserClients(st, s), m) ==
            SendAll(st, ClientsOf(st, order + [s]), m)
  {
    assert (order + [s])[..|order|] == order;
    SendAllTwice(st, ClientsOf(st, order), UserClients(st, s), m);
  }

  /** Sending changes nobody's list. */
  lemma {:induction false} SameClientsOf(st: HubS, r: HubS, order: seq<string>)
    requires Closed(st) && Closed(r) && r.users == st.users && r.people == st.people
    ensures ClientsOf(r, order) == ClientsOf(st, order)
  {
    if order == [] {
    } else {
      SameClientsOf(st, r, order[..|order| - 1]);
    }
  }

  /** `order` is the order in which a map with these keys was ranged over. */
  ghost predicate Ranges(order: seq<string>, keys: set<string>) {
    (forall i, j :: 0 <= i < j < |order| ==> order[i] != order[j]) && forall s :: s in order <==> s in keys
  }

  lemma RangesOneMore(order: seq<string>, keys: set<string>, todo: set<string>, s: string)
    requires Ranges(order, keys - todo) && s in todo && todo <= keys
    ensures Ranges(order + [s], keys - (todo - {s}))
  {
  }

  function Broadcast(st: HubS, body: int, order: seq<string>): HubS
    requires Closed(st)
  {
    SendAll(st, st.guests + ClientsOf(st, order), Cast(body))
  }

  /** One turn of the loop that drains the topic queue. */
  function Drain(st: HubS, order: seq<string>): HubS
    requires Closed(st) && st.queue != []
  {
    var s := st.(queue := st.queue[1..]);
    if st.queue[0].topic in st.topics then SendAll(s, ClientsOf(s, order), Topical(st.queue[0])) else s
  }

  // ----- clients

  /** The first index of `c` from `k` on, or -1. */
  function IndexOf(cs: seq<Client>, c: Client, k: nat := 0): (i: int)
    requires k <= |cs|
    ensures -1 <= i < |cs|
    ensures i < 0 ==> forall j :: k <= j < |cs| ==> cs[j] != c
    ensures 0 <= i ==> k <= i && cs[i] == c && forall j :: k <= j < i ==> cs[j] != c
    decreases |cs| - k
  {
    if k == |cs| then -1 else if cs[k] == c then k else IndexOf(cs, c, k + 1)
  }

  function DeleteAt(cs: seq<Client>, i: nat): seq<Client>
    requires i < |cs|
  {
    cs[..i] + cs[i + 1..]
  }

  function Without(cs: seq<Client>, c: Client): seq<Client> {
    var i := IndexOf(cs, c);
    if i < 0 then cs else DeleteAt(cs, i)
  }

  function RemoveGuest(st: HubS, c: Client): HubS {
    st.(guests := Without(st.guests, c))
  }

  function Close(st: HubS, c: Client): HubS
    requires c in st.clients
  {
    st.(clients := st.clients[c := st.clients[c].(closed := true)])
  }

  /** The first client in the list, from `k` on, with this app. */
  function AppIndex(m: map<Client, ClientS>, cs: seq<Client>, appId: string, k: nat := 0): (i: int)
    requires k <= |cs| && forall c :: c in cs ==> c in m
    ensures -1 <= i < |cs|
    ensures i < 0 ==> forall j :: k <= j < |cs| ==> m[cs[j]].appId != appId
    ensures 0 <= i ==> k <= i && m[cs[i]].appId == appId && forall j :: k <= j < i ==> m[cs[j]].appId != appId
    decreases |cs| - k
  {
    if k == |cs| then -1 else if m[cs[k]].appId == appId then k else AppIndex(m, cs, appId, k + 1)
  }

  ghost predicate KnownTo(st: HubS, to: Addressee) {
    match to
    case Own(c) => c in st.clients
    case Whole(u) => u in st.people
    case App(u, _) => u in st.people
  }

  /** The clients this is for, in the order they are served. */
  function Addressed(st: HubS, to: Addressee): (cs: seq<Client>)
    requires Closed(st) && KnownTo(st, to)
    ensures forall c :: c in cs ==> c in st.clients
  {
    match to
    case Own(c) => [c]
    case Whole(u) => st.people[u].appClients
    case App(u, appId) =>
      var i := AppIndex(st.clients, st.people[u].appClients, appId);
      if i < 0 then [] else [st.people[u].appClients[i]]
  }

  /** A response, or a message to a user. */
  function SendTo(st: HubS, to: Addressee, body: int): HubS
    requires Closed(st) && KnownTo(st, to)
  {
    SendAll(st, Addressed(st, to), Direct(body))
  }

  predicate Matches(x: ClientS, appId: string, conn: int) { x.appId == appId && x.conn == conn }

  /** The first client in the list, from `k` on, with this app and this connection. */
  function ConnIndex(m: map<Client, ClientS>, cs: seq<Client>, appId: string, conn: int, k: nat := 0): (i: int)
    requires k <= |cs| && forall c :: c in cs ==> c in m
    ensures -1 <= i < |cs|
    ensures i < 0 ==> forall j :: k <= j < |cs| ==> !Matches(m[cs[j]], appId, conn)
    ensures 0 <= i ==> k <= i && Matches(m[cs[i]], appId, conn)
                       && forall j :: k <= j < i ==> !Matches(m[cs[j]], appId, conn)
    decreases |cs| - k
  {
    if k == |cs| then -1 else if Matches(m[cs[k]], appId, conn) then k else ConnIndex(m, cs, appId, conn, k + 1)
  }

  function SetClients(st: HubS, u: User, cs: seq<Client>): HubS
    requires u in st.people
  {
    st.(people := st.people[u := st.people[u].(appClients := cs)])
  }

  /** The client object made for a new connection. */
  function Arrive(st: HubS, c: Client): HubS {
    st.(clients := st.clients[c := ClientS(c.conn, null, "", false, false, [])])
  }

  function Connect(st: HubS, c: Client): HubS {
    Pub(st.(guests := st.guests + [c]), "connect")
  }

  function AppLogout(st: HubS, u: User, appId: string, c: Client): HubS
    requires Closed(st) && u in st.people && c in st.clients
  {
    var cs := st.people[u].appClients;
    var i := ConnIndex(st.clients, cs, appId, st.clients[c].conn);
    Pub(st.(people := if i < 0 then st.people else SetClients(st, u, DeleteAt(cs, i)).people,
            clients := if i < 0 then st.clients else Close(st, c).clients), "logout")
  }

  /** One message of the Disconnect channel. */
  function Disconnect(st: HubS, c: Client): HubS
    requires Closed(st) && c in st.clients
  {
    var s := Pub(st, "disconnect");
    var u := st.clients[c].user;
    if u != null then AppLogout(s, u, st.clients[c].appId, c) else RemoveGuest(Close(s, c), c)
  }

  /** The user's list after a login: a client of the same app gives way to the new connection. */
  function LoginList(m: map<Client, ClientS>, cs: seq<Client>, appId: string, c: Client): seq<Client>
    requires c in m && forall d :: d in cs ==> d in m
  {
    var i := AppIndex(m, cs, appId);
    if i < 0 then cs + [c]
    else if m[cs[i]].conn != m[c].conn then DeleteAt(cs, i) + [c]
    else cs
  }

  /** The connection that gave way, which is sent a disconnect. */
  function Replaced(m: map<Client, ClientS>, cs: seq<Client>, appId: string, c: Client): multiset<Client>
    requires c in m && forall d :: d in cs ==> d in m
  {
    var i := AppIndex(m, cs, appId);
    if 0 <= i && m[cs[i]].conn != m[c].conn then multiset{cs[i]} else multiset{}
  }

  function AppLogin(st: HubS, u: User, appId: string, c: Client): HubS
    requires Closed(st) && u in st.people && c in st.clients
  {
    var cs := st.people[u].appClients;
    var s := SetClients(st, u, LoginList(st.clients, cs, appId, c));
    Pub(s.(clients := st.clients[c := st.clients[c].(user := u, appId := appId, isLogin := true)],
           pending := st.pending + Replaced(st.clients, cs, appId, c)), "login")
  }

  /** The state `UserLogin` works on: the user exists. */
  function WithUser(st: HubS, uid: string, nu: User): HubS {
    st.(people := if uid in st.users then st.people else st.people[nu := UserS(uid, [], {}, 0)])
  }

  function UserOf(st: HubS, uid: string, nu: User): User {
    if uid in st.users then st.users[uid] else nu
  }

  function Register(st: HubS, uid: string, u: User): HubS {
    st.(users := st.users[uid := u])
  }

  /** `UserLogin`; `nu` is the user object that is allocated when the uid is not registered. */
  function UserLogin(st: HubS, uid: string, appId: string, c: Client, nu: User): HubS
    requires Closed(st) && c in st.clients && (uid in st.users || nu !in st.people)
  {
    var u := UserOf(st, uid, nu);
    RemoveGuest(Register(AppLogin(WithUser(st, uid, nu), u, appId, c), uid, u), c)
  }

  /** The heartbeat of a connection, which is also its user's. */
  function Heartbeat(st: HubS, u: User, now: int): HubS
    requires u in st.people
  {
    st.(people := st.people[u := st.people[u].(lastHeartbeat := now)])
  }

  // ----- the guard

  const CLEANUP_TTL := 300

  predicate Stale(st: HubS, s: string, now: int)
    requires Closed(st) && s in st.users
  {
    var p := st.people[st.users[s]];
    p.appClients == [] && now - p.lastHeartbeat >= CLEANUP_TTL
  }

  /** What the guard leaves alone. */
  ghost predicate Spares(st: HubS, r: HubS) {
    && r.guests == st.guests && r.clients == st.clients && r.people.Keys == st.people.Keys
    && (forall s :: s in r.users ==> s in st.users && r.users[s] == st.users[s])
    && (forall u :: u in st.people ==> r.people[u].(subTopics := {}) == st.people[u].(subTopics := {}))
  }

  /** The guard's visit to one user. */
  function Visit(st: HubS, s: string, now: int): (r: HubS)
    requires Closed(st)
    ensures Closed(r) && Spares(st, r)
  {
    if s in st.users && Stale(st, s, now) then
      var r := UnsubAll(st, st.users[s]);
      Pub(r.(users := r.users - {s}), "cleanupUser")
    else st
  }

  function VisitAll(st: HubS, order: seq<string>, now: int): (r: HubS)
    requires Closed(st)
    ensures Closed(r) && Spares(st, r)
  {
    if order == [] then st
    else Visit(VisitAll(st, order[..|order| - 1], now), order[|order| - 1], now)
  }

  /** A user that has not been visited is still registered. */
  lemma {:induction false} NotVisited(st: HubS, order: seq<string>, now: int, s: string)
    requires Closed(st) && s in st.users && s !in order
    ensures s in VisitAll(st, order, now).users
  {
    if order == [] {
    } else {
      NotVisited(st, order[..|order| - 1], now, s);
    }
  }

  function Online(st: HubS): set<string>
    requires Closed(st)
  {
    set s | s in st.users && st.people[st.users[s]].appClients != []
  }

  /** How many of the users in `order` have a client. */
  function CountOnline(st: HubS, order: seq<string>): nat
    requires Closed(st)
    requires forall s :: s in order ==> s in st.users
    decreases |order|
  {
    if order == [] then 0
    else
      var n := |order| - 1;
      CountOnline(st, order[..n]) + if st.people[st.users[order[n]]].appClients != [] then 1 else 0
  }

  lemma VisitOneMore(st: HubS, order: seq<string>, s: string, now: int)
    requires Closed(st) && (forall x :: x in order ==> x in st.users) && s in st.users
    ensures VisitAll(st, order + [s], now) == Visit(VisitAll(st, order, now), s, now)
    ensures CountOnline(st, order + [s]) ==
            CountOnline(st, order) + if st.people[st.users[s]].appClients != [] then 1 else 0
  {
    assert (order + [s])[..|order|] == order;
  }

  /** One tick of the guard. */
  function Sweep(st: HubS, order: seq<string>, now: int): HubS
    requires Closed(st) && Ranges(order, st.users.Keys)
  {
    var r := VisitAll(st, order, now).(loginCount := CountOnline(st, order), guestCount := |st.guests|);
    Pub(Pub(r, "userCount"), "guestsCount")
  }
}
