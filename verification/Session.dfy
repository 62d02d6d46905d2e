// Client sessions and the user-to-connection map (server/connd/SessionManager.cpp), and the
// kick-then-rebind sequence of handleLogin (server/connd/ConndMsgDispatcher.cpp), whose three
// calls are three steps: other threads may run in between.
module Session {
  import opened Wrappers

  type ConnId = nat
  type UserId = string
  type Tid = nat

  datatype Client = Client(user: UserId, authed: bool)

  datatype Book = Book(sessions: map<ConnId, Client>, users: map<UserId, ConnId>)

  // ---- the three operations -------------------------------------------------------------

  function Connected(b: Book, c: ConnId): Book { b.(sessions := b.sessions[c := Client("", false)]) }

  function Disconnected(b: Book, c: ConnId): Book {
    if c !in b.sessions then b
    else
      var s := b.sessions[c];
      var users := if s.authed && s.user != "" && s.user in b.users && b.users[s.user] == c then b.users - {s.user} else b.users;
      Book(b.sessions - {c}, users)
  }

  /** The connection another login of user u holds. */
  function Holder(b: Book, c: ConnId, u: UserId): Option<ConnId> {
    if u in b.users && b.users[u] != c then Some(b.users[u]) else None
  }

  predicate Binds(b: Book, c: ConnId, u: UserId) { Holder(b, c, u).None? && c in b.sessions }

  function Authed(b: Book, c: ConnId, u: UserId): Book {
    if Binds(b, c, u) then Book(b.sessions[c := Client(u, true)], b.users[u := c]) else b
  }

  // ---- any number of threads ------------------------------------------------------------

  datatype Pc =
    | Idle
    | Kick(c: ConnId, u: UserId, older: ConnId)   // handleLogin was told of an older connection
    | Rebind(c: ConnId, u: UserId)              // it is disconnected; second on_auth_ok to come

  datatype State = State(book: Book, pcs: seq<Pc>)

  datatype Action =
    | Connect(c: ConnId)
    | Disconnect(c: ConnId)
    | Login(t: Tid, c: ConnId, u: UserId)
    | KickOld(t: Tid)
    | BindAgain(t: Tid)

  predicate Enabled(s: State, a: Action) {
    match a
    case Login(t, _, _) => t < |s.pcs| && s.pcs[t].Idle?
    case KickOld(t) => t < |s.pcs| && s.pcs[t].Kick?
    case BindAgain(t) => t < |s.pcs| && s.pcs[t].Rebind?
    case _ => true
  }

  function Apply(s: State, a: Action): State
    requires Enabled(s, a)
  {
    match a
    case Connect(c) => s.(book := Connected(s.book, c))
    case Disconnect(c) => s.(book := Disconnected(s.book, c))
    case Login(t, c, u) =>
      var h := Holder(s.book, c, u);
      State(Authed(s.book, c, u), if h.Some? then s.pcs[t := Kick(c, u, h.value)] else s.pcs)
    case KickOld(t) =>
      State(Disconnected(s.book, s.pcs[t].older), s.pcs[t := Rebind(s.pcs[t].c, s.pcs[t].u)])
    case BindAgain(t) =>
      State(Authed(s.book, s.pcs[t].c, s.pcs[t].u), s.pcs[t := Idle])
  }

  predicate Legal(s: State, acts: seq<Action>)
    decreases |acts|
  {
    acts == [] || (Enabled(s, acts[0]) && Legal(Apply(s, acts[0]), acts[1..]))
  }

  function Final(s: State, acts: seq<Action>): State
    requires Legal(s, acts)
    decreases |acts|
  {
    if acts == [] then s else Final(Apply(s, acts[0]), acts[1..])
  }

  // ---- one authenticated connection per user, always ------------------------------------

  /** The user of every authenticated session maps back to that session. */
  ghost predicate MapsBack(b: Book) {
    forall c :: c in b.sessions && b.sessions[c].authed ==> b.sessions[c].user in b.users && b.users[b.sessions[c].user] == c
  }

  lemma StepMapsBack(s: State, a: Action)
    requires MapsBack(s.book) && Enabled(s, a)
    ensures MapsBack(Apply(s, a).book)
  {
  }

  lemma {:induction false} RunMapsBack(s: State, acts: seq<Action>)
    requires MapsBack(s.book) && Legal(s, acts)
    ensures MapsBack(Final(s, acts).book)
    decreases |acts|
  {
    if acts != [] {
      StepMapsBack(s, acts[0]);
      RunMapsBack(Apply(s, acts[0]), acts[1..]);
    }
  }

  /** In every run from the empty state, whatever connections are re-used or re-authenticated,
      no user has two authenticated connections. */
  lemma {:induction false} OneConnectionPerUser(n: nat, acts: seq<Action>, c: ConnId, d: ConnId)
    requires Legal(Start(n), acts)
    requires var z := Final(Start(n), acts).book;
      c in z.sessions && d in z.sessions && z.sessions[c].authed && z.sessions[d].authed && z.sessions[c].user == z.sessions[d].user
    ensures c == d
  {
    RunMapsBack(Start(n), acts);
  }

  function Start(n: nat): State { State(Book(map[], map[]), seq(n, _ => Idle)) }

  // ---- when the two maps are inverse bijections -------------------------------------------

  /** Every mapped user's connection is authenticated as that user. */
  ghost predicate NoStale(b: Book) {
    forall u :: u in b.users ==> b.users[u] in b.sessions && b.sessions[b.users[u]] == Client(u, true)
  }

  ghost predicate Inverse(b: Book) { MapsBack(b) && NoStale(b) }

  /** What a careful caller checks before each call: a new connection id is not in use by an
      authenticated session, a session that ends was not authenticated with an empty user id,
      and a binding does not change the user of an authenticated session. */
  predicate CarefulConnect(b: Book, c: ConnId) { c in b.sessions ==> !b.sessions[c].authed }

  predicate CarefulDisconnect(b: Book, c: ConnId) { c in b.sessions && b.sessions[c].authed ==> b.sessions[c].user != "" }

  predicate CarefulBind(b: Book, c: ConnId, u: UserId) {
    Binds(b, c, u) && b.sessions[c].authed ==> b.sessions[c].user == u
  }

  predicate Careful(s: State, a: Action) {
    Enabled(s, a) &&
    match a
    case Connect(c) => CarefulConnect(s.book, c)
    case Disconnect(c) => CarefulDisconnect(s.book, c)
    case Login(t, c, u) => CarefulBind(s.book, c, u)
    case KickOld(t) => CarefulDisconnect(s.book, s.pcs[t].older)
    case BindAgain(t) => CarefulBind(s.book, s.pcs[t].c, s.pcs[t].u)
  }

  lemma ConnectInverseIff(b: Book, c: ConnId)
    requires Inverse(b)
    ensures Inverse(Connected(b, c)) <==> CarefulConnect(b, c)
  {
    if !CarefulConnect(b, c) {
      assert b.users[b.sessions[c].user] == c;
      assert Connected(b, c).sessions[c] == Client("", false);
    }
  }

  lemma DisconnectInverseIff(b: Book, c: ConnId)
    requires Inverse(b)
    ensures Inverse(Disconnected(b, c)) <==> CarefulDisconnect(b, c)
  {
    if !CarefulDisconnect(b, c) {
      assert "" in Disconnected(b, c).users && b.users[""] == c;
    }
  }

  lemma BindInverseIff(b: Book, c: ConnId, u: UserId)
    requires Inverse(b)
    ensures Inverse(Authed(b, c, u)) <==> CarefulBind(b, c, u)
  {
    var b' := Authed(b, c, u);
    if !CarefulBind(b, c, u) {
      var v := b.sessions[c].user;
      assert v in b'.users && b'.users[v] == c && b'.sessions[c] == Client(u, true);
    } else {
      forall v | v in b'.users ensures b'.users[v] in b'.sessions && b'.sessions[b'.users[v]] == Client(v, true) {
        if v != u {
          assert b.sessions[b.users[v]] == Client(v, true);
        }
      }
    }
  }

  /** A step keeps the two maps inverse to each other exactly when it is careful. */
  lemma StepInverseIff(s: State, a: Action)
    requires Inverse(s.book) && Enabled(s, a)
    ensures Inverse(Apply(s, a).book) <==> Careful(s, a)
  {
    hide Inverse, Connected, Disconnected, Authed;
    match a
    case Connect(c) => ConnectInverseIff(s.book, c);
    case Disconnect(c) => DisconnectInverseIff(s.book, c);
    case Login(t, c, u) => BindInverseIff(s.book, c, u);
    case KickOld(t) => DisconnectInverseIff(s.book, s.pcs[t].older);
    case BindAgain(t) => BindInverseIff(s.book, s.pcs[t].c, s.pcs[t].u);
  }

  // ---- runs in which no connection logs in as two users -----------------------------------

  /** In this run connection c only ever logs in as who(c). */
  ghost predicate Sticks(who: ConnId -> UserId, s: State) {
    && (forall c :: c in s.book.sessions && s.book.sessions[c].authed ==> s.book.sessions[c].user == who(c))
    && (forall t :: 0 <= t < |s.pcs| && !s.pcs[t].Idle? ==> s.pcs[t].u == who(s.pcs[t].c))
  }

  /** Fresh connection ids, one non-empty user per connection. */
  predicate Tame(who: ConnId -> UserId, s: State, a: Action) {
    Enabled(s, a) &&
    match a
    case Connect(c) => c !in s.book.sessions
    case Login(_, c, u) => u == who(c)
    case _ => true
  }

  predicate TameRun(who: ConnId -> UserId, s: State, acts: seq<Action>)
    decreases |acts|
  {
    acts == [] || (Tame(who, s, acts[0]) && TameRun(who, Apply(s, acts[0]), acts[1..]))
  }

  lemma TameIsCareful(who: ConnId -> UserId, s: State, a: Action)
    requires Sticks(who, s) && Tame(who, s, a) && forall c :: who(c) != ""
    ensures Careful(s, a) && Sticks(who, Apply(s, a))
  {
  }

  lemma {:induction false} TameRunInverse(who: ConnId -> UserId, s: State, acts: seq<Action>)
    requires TameRun(who, s, acts) && Sticks(who, s) && Inverse(s.book) && forall c :: who(c) != ""
    ensures Legal(s, acts) && Inverse(Final(s, acts).book)
    decreases |acts|
  {
    hide Inverse, Sticks, Careful;
    if acts != [] {
      TameIsCareful(who, s, acts[0]);
      StepInverseIff(s, acts[0]);
      TameRunInverse(who, Apply(s, acts[0]), acts[1..]);
    }
  }

  /** In every such run the maps are inverse bijections, under every interleaving. */
  lemma {:induction false} BijectionInTameRuns(who: ConnId -> UserId, n: nat, acts: seq<Action>)
    requires TameRun(who, Start(n), acts) && forall c :: who(c) != ""
    ensures Legal(Start(n), acts)
    ensures var z := Final(Start(n), acts).book;
      forall c, u :: (c in z.sessions && z.sessions[c] == Client(u, true)) <==> (u in z.users && z.users[u] == c)
  {
    TameRunInverse(who, Start(n), acts);
  }

  // ---- what goes wrong otherwise -----------------------------------------------------------

  lemma RunThree(s: State, a: Action, b: Action, c: Action)
    requires Enabled(s, a) && Enabled(Apply(s, a), b) && Enabled(Apply(Apply(s, a), b), c)
    ensures Legal(s, [a, b, c]) && Final(s, [a, b, c]) == Apply(Apply(Apply(s, a), b), c)
  {
    hide Enabled, Apply;
    var s1, s2 := Apply(s, a), Apply(Apply(s, a), b);
    assert [a, b, c][1..] == [b, c] && [b, c][1..] == [c] && [c][1..] == [];
    var s3 := Apply(s2, c);
    assert Legal(s3, []) && Final(s3, []) == s3;
    assert Legal(s2, [c]) && Final(s2, [c]) == s3;
    assert Legal(s1, [b, c]) && Final(s1, [b, c]) == s3;
  }

  lemma {:induction false} RunConcat(s: State, x: seq<Action>, y: seq<Action>)
    requires Legal(s, x) && Legal(Final(s, x), y)
    ensures Legal(s, x + y) && Final(s, x + y) == Final(Final(s, x), y)
    decreases |x|
  {
    hide Enabled, Apply;
    if x == [] {
      assert x + y == y;
    } else {
      RunConcat(Apply(s, x[0]), x[1..], y);
      assert (x + y)[1..] == x[1..] + y;
    }
  }

  /** Connection c logs in twice, as u and then as v. */
  function Relogged(u: UserId, v: UserId, c: ConnId): State {
    State(Book(map[c := Client(v, true)], map[u := c, v := c]), [Idle])
  }

  lemma LogsInTwice(u: UserId, v: UserId, c: ConnId) returns (acts: seq<Action>)
    requires u != v
    ensures Legal(Start(1), acts) && Final(Start(1), acts) == Relogged(u, v, c)
  {
    hide Legal, Final;
    acts := [Connect(c), Login(0, c, u), Login(0, c, v)];
    RunThree(Start(1), acts[0], acts[1], acts[2]);
    assert Start(1).pcs == [Idle];
  }

  /** Its first user is still mapped to it.  The next login of that user kicks it, does not
      bind, and leaves the user mapped to a connection that is gone. */
  lemma SecondUserLocksOut(u: UserId, v: UserId, c: ConnId, d: ConnId) returns (acts: seq<Action>)
    requires u != v && v != "" && c != d
    ensures Legal(Start(1), acts)
    ensures Final(Start(1), acts) == State(Book(map[d := Client("", false)], map[u := c]), [Rebind(d, u)])
    ensures Apply(Final(Start(1), acts), BindAgain(0)) == Final(Start(1), acts).(pcs := [Idle])
  {
    hide Legal, Final;
    var first := LogsInTwice(u, v, c);
    var s := Relogged(u, v, c);
    var next := [Connect(d), Login(0, d, u), KickOld(0)];
    RunThree(s, next[0], next[1], next[2]);
    assert Disconnected(Connected(s.book, d), c) == Book(map[d := Client("", false)], map[u := c]);
    RunConcat(Start(1), first, next);
    acts := first + next;
  }

  /** User u is mapped to connection c, which has no session. */
  predicate Dangling(b: Book, u: UserId, c: ConnId) { u in b.users && b.users[u] == c && c !in b.sessions }

  /** From then on, unless that very connection id connects again, no run of any threads lets
      the user in. */
  lemma {:induction false} LockedOutForGood(s: State, acts: seq<Action>, u: UserId, c: ConnId)
    requires Legal(s, acts) && Dangling(s.book, u, c) && Connect(c) !in acts
    requires forall d :: d in s.book.sessions && s.book.sessions[d].authed ==> s.book.sessions[d].user != u
    ensures var z := Final(s, acts).book;
      Dangling(z, u, c) && forall d :: d in z.sessions && z.sessions[d].authed ==> z.sessions[d].user != u
    decreases |acts|
  {
    if acts != [] {
      assert acts[0] in acts && forall a :: a in acts[1..] ==> a in acts;
      LockedOutForGood(Apply(s, acts[0]), acts[1..], u, c);
    }
  }

  // ---- what may happen between handleLogin's calls -------------------------------------------

  /** Step a lets a connection other than c in as u. */
  predicate LetsIn(s: State, a: Action, c: ConnId, u: UserId)
    requires Enabled(s, a)
  {
    match a
    case Login(_, d, v) => v == u && d != c && Binds(s.book, d, u)
    case BindAgain(t) => s.pcs[t].u == u && s.pcs[t].c != c && Binds(s.book, s.pcs[t].c, u)
    case _ => false
  }

  /** Step a ends the mapping of u. */
  predicate Frees(s: State, a: Action, u: UserId)
    requires Enabled(s, a)
  {
    u in s.book.users && u !in Apply(s, a).book.users
  }

  predicate FreedIn(s: State, acts: seq<Action>, u: UserId)
    requires Legal(s, acts)
    decreases |acts|
  {
    acts != [] && (Frees(s, acts[0], u) || FreedIn(Apply(s, acts[0]), acts[1..], u))
  }

  /** Some step of the run lets another connection in as u, and no later step takes it out. */
  predicate OvertakenIn(s: State, acts: seq<Action>, c: ConnId, u: UserId)
    requires Legal(s, acts)
    decreases |acts|
  {
    acts != [] &&
    ((LetsIn(s, acts[0], c, u) && !FreedIn(Apply(s, acts[0]), acts[1..], u)) ||
     OvertakenIn(Apply(s, acts[0]), acts[1..], c, u))
  }

  /** What one step does to the user's mapping. */
  lemma HolderAfter(s: State, a: Action, c: ConnId, u: UserId)
    requires Enabled(s, a)
    ensures Holder(Apply(s, a).book, c, u).Some? <==> LetsIn(s, a, c, u) || (Holder(s.book, c, u).Some? && !Frees(s, a, u))
    ensures LetsIn(s, a, c, u) ==> !Frees(s, a, u)
  {
  }

  lemma {:induction false} HolderAfterRun(s: State, acts: seq<Action>, c: ConnId, u: UserId)
    requires Legal(s, acts)
    ensures Holder(Final(s, acts).book, c, u).Some? <==>
      OvertakenIn(s, acts, c, u) || (Holder(s.book, c, u).Some? && !FreedIn(s, acts, u))
    decreases |acts|
  {
    hide Apply, Enabled, LetsIn, Frees, Holder;
    if acts != [] {
      HolderAfter(s, acts[0], c, u);
      HolderAfterRun(Apply(s, acts[0]), acts[1..], c, u);
    }
  }

  /** Thread t has kicked an older connection and is to call on_auth_ok a second time.  In every
      run that leads there from s, with whatever other threads do, that call makes its
      connection the user's exactly when the connection is still known, the holder there was
      at s has been taken out, and no login from another connection has come and stayed. */
  lemma {:induction false} RebindIff(s: State, acts: seq<Action>, t: Tid)
    requires Legal(s, acts) && t < |Final(s, acts).pcs| && Final(s, acts).pcs[t].Rebind?
    ensures var z := Final(s, acts);
      var c, u := z.pcs[t].c, z.pcs[t].u;
      var y := Apply(z, BindAgain(t)).book;
      (u in y.users && y.users[u] == c && c in y.sessions && y.sessions[c] == Client(u, true)) <==>
        c in z.book.sessions && !OvertakenIn(s, acts, c, u) && (Holder(s.book, c, u).Some? ==> FreedIn(s, acts, u))
  {
    hide Legal, Final, OvertakenIn, FreedIn;
    var z := Final(s, acts);
    HolderAfterRun(s, acts, z.pcs[t].c, z.pcs[t].u);
  }

  /** While a login's thread is between its calls, another login of the same user may bind
      first: the second on_auth_ok then binds nothing, and its answer is not looked at. */
  lemma RebindMayMiss(u: UserId, c: ConnId, d: ConnId, e: ConnId)
    requires u != "" && c != d && c != e && d != e
    ensures var s := Contested(u, c, d, e);
      var acts := [Login(0, d, u), Login(1, e, u), KickOld(0)] + [KickOld(1), BindAgain(0), BindAgain(1)];
      && Inverse(s.book) && Legal(s, acts)
      && Final(s, acts).book == Book(map[d := Client(u, true), e := Client("", false)], map[u := d])
  {
    hide Legal, Final;
    var s := Contested(u, c, d, e);
    var x, y := [Login(0, d, u), Login(1, e, u), KickOld(0)], [KickOld(1), BindAgain(0), BindAgain(1)];
    RunThree(s, x[0], x[1], x[2]);
    var s1 := Apply(s, x[0]);
    assert s1 == State(s.book, [Kick(d, u, c), Idle]);
    var s2 := Apply(s1, x[1]);
    assert s2 == State(s.book, [Kick(d, u, c), Kick(e, u, c)]);
    var freed := Book(map[d := Client("", false), e := Client("", false)], map[]);
    assert Disconnected(s.book, c) == freed;
    var m := State(freed, [Rebind(d, u), Kick(e, u, c)]);
    assert Apply(s2, x[2]) == m;
    RunThree(m, y[0], y[1], y[2]);
    RunConcat(s, x, y);
  }

  /** Two threads, connection c holding user u, two more connections. */
  function Contested(u: UserId, c: ConnId, d: ConnId, e: ConnId): State {
    State(Book(map[c := Client(u, true), d := Client("", false), e := Client("", false)], map[u := c]), [Idle, Idle])
  }

  // ---- the class ----------------------------------------------------------------------------

  class SessionManager {
    var sessions: map<ConnId, Client>
    var userToConn: map<UserId, ConnId>

    ghost function B(): Book
      reads this
    {
      Book(sessions, userToConn)
    }

    constructor ()
      ensures B() == Book(map[], map[])
    {
      sessions, userToConn := map[], map[];
    }

    method OnConnect(c: ConnId)
      modifies this
      ensures B() == Connected(old(B()), c)
      ensures old(MapsBack(B())) ==> MapsBack(B())
    {
      sessions := sessions[c := Client("", false)];
    }

    method OnDisconnect(c: ConnId)
      modifies this
      ensures B() == Disconnected(old(B()), c)
      ensures old(MapsBack(B())) ==> MapsBack(B())
    {
      if c !in sessions {
        return;
      }
      var s := sessions[c];
      if s.authed && s.user != "" {
        if s.user in userToConn && userToConn[s.user] == c {
          userToConn := userToConn - {s.user};
        }
      }
      sessions := sessions - {c};
    }

    /** The older connection to kick, or none; binds only when there is none. */
    method OnAuthOk(c: ConnId, u: UserId) returns (older: Option<ConnId>)
      modifies this
      ensures older == Holder(old(B()), c, u) && B() == Authed(old(B()), c, u)
      ensures old(MapsBack(B())) ==> MapsBack(B())
    {
      if u in userToConn && userToConn[u] != c {
        return Some(userToConn[u]);
      }
      if c in sessions {
        sessions := sessions[c := Client(u, true)];
        userToConn := userToConn[u := c];
      }
      older := None;
    }

    /** handleLogin after a verified token, when no other thread comes in between: from maps
        that are inverse to each other, a known connection ends up as the user's one session. */
    method HandleLogin(c: ConnId, u: UserId)
      modifies this
      ensures B() == match old(Holder(B(), c, u))
        case None => old(Authed(B(), c, u))
        case Some(older) => Authed(old(Disconnected(B(), older)), c, u)
      ensures old(MapsBack(B())) ==> MapsBack(B())
      ensures old(Inverse(B())) && c in old(sessions) && u != "" ==>
        c in sessions && sessions[c] == Client(u, true) && u in userToConn && userToConn[u] == c
      ensures old(Inverse(B())) && c in old(sessions) && u != "" ==>
        (Inverse(B()) <==> old(sessions[c].authed ==> sessions[c].user == u))
    {
      ghost var b := B();
      var older := OnAuthOk(c, u);
      if older.Some? {
        ghost var b1 := B();
        OnDisconnect(older.value);
        ghost var b2 := B();
        var _ := OnAuthOk(c, u);
        if Inverse(b) && u != "" {
          DisconnectInverseIff(b1, older.value);
          BindInverseIff(b2, c, u);
        }
      } else if Inverse(b) {
        BindInverseIff(b, c, u);
      }
    }
  }
}
