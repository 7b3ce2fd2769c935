/**
 What comes of a message over a run: a copy in the queue of everyone registered for its route, an answer for
 its sender, or a change in the routing table, and nothing for or by anyone else.
 */
module Postings {
  import opened Bytes
  import opened Connections
  import opened Delivery
  import opened Offices
  import opened Lives
  import Counting
  import Queues
  import Routing
  import Stackish

  type Member = Routing.Member

  // ---------------------------------------------------------------- a message arrives

  /** A round of the idle connection's reading task in which a message with the next number arrives. */
  ghost predicate Arrives(s: Instant, step: HubStep, c: Connection) {
    && step.Reads? && step.arrived && Actor(s.scene, step) == c && s.scene.stage[c] == 3
    && s.scene.views[c].cs == IDLE && step.fate.decoded == Some(s.scene.views[c].recvCount)
  }

  /** The path it is for has a route; `own` says if that is the hub's. */
  predicate For(s: Instant, data: Stackish.Tree, p: Routing.Path, own: Option<Routing.Callback>) {
    && data.Node? && data.name.Some? && Routing.Count(data.child) <= 30 && p == Routing.PathOf(data)
    && p in s.board && s.board[p].own == own
  }

  /** A message that is carried out leaves the connection idle, with its member. */
  lemma IdleAgain(v: View, fate: Fate)
    requires v.cs == IDLE && v.client && v.joined && fate.decoded == Some(v.recvCount)
    ensures var w := IncomingSpec(v, true, fate, true).0;
      w == v.(recvCount := Succ(v.recvCount), serviced := v.serviced + [v.recvCount],
              recvMsg := None, recvPending := false)
  {
    hide ExecSpec, Succ;
    var u := v.(recvPending := true);
    ExecIs(u, 'R', fate, true);
    ExecIs(u.(cs := DELIVERING, recvMsg := fate.decoded), 's', fate, true);
  }

  lemma SceneThen(s: Instant, step: HubStep, t: Instant, c: Connection)
    requires Moves(s, step, t) && Arrives(s, step, c)
    ensures c in t.scene.views
    ensures t.scene.views[c] ==
      IncomingSpec(s.scene.views[c], true, step.fate, ComesOn(s.board, step.fate) == Served).0
  {
    hide IncomingSpec, BoardAfter, ComesOn, Posts;
  }

  /** Its connection has a member, which it keeps if the message is carried out. */
  lemma ArrivesMeans(s: Instant, step: HubStep, t: Instant, c: Connection)
    requires Matched(s) && Matched(t) && Moves(s, step, t) && Arrives(s, step, c)
    ensures Posts(s.scene, step) && !Dispatches(s.scene, step)
    ensures c in s.members && s.members[c] != null && c in t.members
    ensures ComesOn(s.board, step.fate) == Served ==> t.members[c] == s.members[c]
  {
    hide IncomingSpec, BoardAfter, ComesOn, Opened, Follows;
    assert Sound(s.scene.views[c]);
    SceneThen(s, step, t, c);
    IdleAgain(s.scene.views[c], step.fate);
  }

  // ---------------------------------------------------------------- for a route's members

  lemma MailForRoute(s: Instant, step: HubStep, c: Connection, p: Routing.Path)
    requires Arrives(s, step, c) && Posts(s.scene, step) && For(s, step.fate.data, p, None)
    ensures ComesOn(s.board, step.fate) == Served && MailAt(s, step) == To(s.board[p].members)
  {
    hide Routing.Count, Routing.PathOf;
  }

  lemma DoesOne(b: Bags, d: Deed, box: Box, c: Bags)
    requires Does(b, [d], box, c)
    ensures Makes(b, d, box, c)
  {
    assert [d][1..] == [];
  }

  /**
   `c` are the queues `b` with a copy of `m` for each of the first `n` of the members `ms`, once for every
   time they are listed; `n` is where the first of them has no room left.
   */
  ghost predicate Copied(b: Bags, c: Bags, box: Box, ms: seq<Member>, n: nat, m: Queues.Message) {
    && n <= |ms| && (forall x :: x in ms ==> x in box) && Balanced(b) && Balanced(c) && |b.lists| == |c.lists|
    && (forall x :: x in box ==> box[x] < |b.lists|)
    && (forall x :: x in box ==>
          var k, copies := box[x], seq(Counting.Times(ms[..n], x), _ => m);
          c.posted[k] == b.posted[k] + copies && c.lists[k] == b.lists[k] + copies)
    && (forall i :: 0 <= i < n ==> |b.lists[box[ms[i]]]| + Counting.Times(ms[..i], ms[i]) < 29)
    && (n < |ms| ==> |b.lists[box[ms[n]]]| + Counting.Times(ms[..n], ms[n]) >= 29)
  }

  lemma {:induction false} BoxTimes(ms: seq<Member>, box: Box, x: Member)
    requires (forall y :: y in ms ==> y in box) && x in box
    requires forall y, z :: y in box && z in box && box[y] == box[z] ==> y == z
    ensures Counting.Times(Boxes(ms, box), box[x]) == Counting.Times(ms, x)
  {
    if ms == [] {
    } else {
      var init := ms[..|ms| - 1];
      BoxTimes(init, box, x);
      assert Boxes(ms, box)[..|ms| - 1] == Boxes(init, box);
    }
  }

  lemma CopiesAt(lists: Lists, ms: seq<Member>, i: nat, box: Box, m: Queues.Message, x: Member)
    requires i <= |ms| && (forall y :: y in ms ==> y in box) && x in box && Assigned(box, |lists|)
    ensures forall a :: 0 <= a < i ==> Boxes(ms, box)[..i][a] < |lists|
    ensures Queues.Given(lists, Boxes(ms, box)[..i], m)[box[x]] ==
      lists[box[x]] + seq(Counting.Times(ms[..i], x), _ => m)
  {
    hide Queues.Given;
    BoxTimes(ms[..i], box, x);
    assert Boxes(ms, box)[..i] == Boxes(ms[..i], box);
    Queues.GivenCopies(lists, Boxes(ms, box)[..i], m, box[x]);
  }

  lemma SpreadCopies(lists: Lists, ms: seq<Member>, box: Box, m: Queues.Message) returns (n: nat)
    requires (forall y :: y in ms ==> y in box) && Assigned(box, |lists|)
    ensures n <= |ms|
    ensures var now := Queues.Spread(lists, Dims(|lists|), Boxes(ms, box), m, 0).0;
      |now| == |lists| &&
      forall x :: x in box ==> now[box[x]] == lists[box[x]] + seq(Counting.Times(ms[..n], x), _ => m)
    ensures forall i :: 0 <= i < n ==> |lists[box[ms[i]]]| + Counting.Times(ms[..i], ms[i]) < 29
    ensures n < |ms| ==> |lists[box[ms[n]]]| + Counting.Times(ms[..n], ms[n]) >= 29
  {
    hide Queues.Given, Queues.Spread, Counting.Times;
    var ks := Boxes(ms, box);
    n := Queues.SpreadStops(lists, Dims(|lists|), ks, m, 0);
    forall x | x in box
      ensures Queues.Given(lists, ks[..n], m)[box[x]] == lists[box[x]] + seq(Counting.Times(ms[..n], x), _ => m)
    {
      CopiesAt(lists, ms, n, box, m, x);
    }
    forall i | 0 <= i <= n && i < |ms|
      ensures |Queues.Given(lists, ks[..i], m)[ks[i]]| == |lists[box[ms[i]]]| + Counting.Times(ms[..i], ms[i])
    {
      CopiesAt(lists, ms, i, box, m, ms[i]);
    }
  }

  /** A mail for several members is copied like that. */
  lemma MailedCopies(b: Bags, box: Box, ms: seq<Member>, k: nat, m: Queues.Message) returns (n: nat)
    requires Balanced(b) && k < |b.lists| && Addressed(To(ms), box, |b.lists|) && Assigned(box, |b.lists|)
    ensures Copied(b, Mailed(b, To(ms), box, k, m), box, ms, n, m)
  {
    MailedBalances(b, To(ms), box, k, m);
    hide Queues.Spread, Counting.Times;
    n := SpreadCopies(b.lists, ms, box, m);
  }

  /**
   A message for a route that is not the hub's own: everyone registered there finds a copy of it in the queue
   for every registration, one member after the other up to the first whose queue is full, and nobody else does.
   */
  lemma DeliversTo(g: Moment, step: HubStep, m: Queues.Message?, h: Moment, c: Connection, p: Routing.Path)
    returns (n: nat)
    requires Accounted(g) && Accounted(h) && Moved(g, step, m, h)
    requires Arrives(g.at, step, c) && For(g.at, step.fate.data, p, None)
    ensures var ms := g.at.board[p].members;
      if ms == [] then h.bags == g.bags
      else m != null && IsNew(g.bags, m) && Copied(g.bags, h.bags, g.box, ms, n, m)
  {
    hide Moves, MailAt, Does, Balanced, Matched, ComesOn, Posts, Dispatches, Copied, Actor;
    ArrivesMeans(g.at, step, h.at, c);
    MailForRoute(g.at, step, c, p);
    var was, ms := g.at.members[c], g.at.board[p].members;
    if ms == [] {
      assert Deeds(To(ms), m, false, was, was, g.box) == [];
      NothingDone(g.bags, g.box, h.bags);
      n := 0;
    } else {
      var d := Mails(To(ms), Key(was, g.box), m);
      assert Deeds(To(ms), m, false, was, was, g.box) == [d];
      DoesOne(g.bags, d, g.box, h.bags);
      n := MailedCopies(g.bags, g.box, ms, Key(was, g.box), m);
    }
  }

  lemma NothingDone(b: Bags, box: Box, c: Bags)
    requires Does(b, [], box, c)
    ensures b == c
  {}

  // ---------------------------------------------------------------- for the hub itself

  /** How often a member is registered for a path. */
  function Registrations(b: Routing.Board, p: Routing.Path, x: Member): nat {
    if p in b then Counting.Times(b[p].members, x) else 0
  }

  lemma BoardThen(s: Instant, step: HubStep, t: Instant, c: Connection)
    requires Matched(s) && Matched(t) && Moves(s, step, t) && Arrives(s, step, c)
    requires ComesOn(s.board, step.fate) == Served
    ensures c in s.members && s.members[c] != null && t.board == ServicedOn(s.board, step.fate, s.members[c])
  {
    ArrivesMeans(s, step, t, c);
    hide Follows, Matched, Posts, ComesOn, ServicedOn, Arrives;
  }

  /**
   A request to register: every prefix of the path asked for has a route, the sender is registered there once
   more than before, and no other registration has changed.
   */
  lemma Registering(s: Instant, step: HubStep, t: Instant, c: Connection, p: Routing.Path)
    requires Matched(s) && Matched(t) && Moves(s, step, t) && Arrives(s, step, c)
    requires For(s, step.fate.data, p, Some(Routing.Registers))
    requires var r := Inner(step.fate.data); r.Node? && r.name.Some? && Routing.Roomy(r.child, 1)
    requires var q := Routing.PathOf(Inner(step.fate.data)); q in s.board ==> s.board[q].own == None
    ensures var q := Routing.PathOf(Inner(step.fate.data));
      && (forall o :: o in t.board <==> o in s.board || o <= q)
      && c in s.members && s.members[c] != null
      && forall o, x :: o in t.board ==>
           Registrations(t.board, o, x) == Registrations(s.board, o, x) + if o == q && x == s.members[c] then 1 else 0
  {
    var q := Routing.PathOf(Inner(step.fate.data));
    RegisterComes(s, step, p);
    BoardThen(s, step, t, c);
    RegisterServes(s, step, p, s.members[c]);
    hide Moves, Matched, Arrives, ComesOn, ServicedOn, Inner, For, Routing.PathOf, Routing.Roomy;
    hide Routing.Registered, Registrations;
    var m: Member := s.members[c];
    forall o ensures o in t.board <==> o in s.board || o <= q { RegisteredPaths(s.board, q, m, o); }
    forall o, x | o in t.board
      ensures Registrations(t.board, o, x) == Registrations(s.board, o, x) + if o == q && x == m then 1 else 0
    {
      RegisteredCounts(s.board, q, m, o, x);
    }
  }

  lemma RegisteredPaths(b: Routing.Board, q: Routing.Path, m: Member, o: Routing.Path)
    ensures o in Routing.Registered(b, q, m) <==> o in b || o <= q
  {
    Routing.RaisedHas(b, q, o);
  }

  lemma RegisteredCounts(b: Routing.Board, q: Routing.Path, m: Member, o: Routing.Path, x: Member)
    ensures Registrations(Routing.Registered(b, q, m), o, x) ==
      Registrations(b, o, x) + if o == q && x == m then 1 else 0
  {
    RegisteredPaths(b, q, m, o);
    hide Routing.PlusMember;
    assert Counting.Times([], x) == 0;
    if o in Routing.Registered(b, q, m) {
      Routing.PlusMemberMeans(Routing.Raised(b, q)[o].members, m, x);
      hide Counting.Times;
    } else {
      assert q <= q;
    }
  }

  lemma UnregisteredPaths(b: Routing.Board, q: Routing.Path, m: Member)
    ensures Routing.Unregistered(b, q, m).Keys == b.Keys
  {}

  lemma UnregisteredCounts(b: Routing.Board, q: Routing.Path, m: Member, o: Routing.Path, x: Member)
    ensures var was := Registrations(b, o, x);
      Registrations(Routing.Unregistered(b, q, m), o, x) == if o == q && x == m && was > 0 then was - 1 else was
  {
    hide Counting.Times, Counting.Minus;
    if o in b { Counting.MinusTimes(b[o].members, m, x); }
  }

  lemma ClearedCounts(b: Routing.Board, m: Member, o: Routing.Path, x: Member)
    ensures Registrations(Routing.Cleared(b, m), o, x) == if x == m then 0 else Registrations(b, o, x)
  {
    hide Counting.Times, Counting.Others;
    if o in b { Counting.OthersTimes(b[o].members, m, x); }
  }

  lemma RegisterComes(s: Instant, step: HubStep, p: Routing.Path)
    requires For(s, step.fate.data, p, Some(Routing.Registers))
    requires var r := Inner(step.fate.data); r.Node? && r.name.Some? && Routing.Roomy(r.child, 1)
    requires var q := Routing.PathOf(Inner(step.fate.data)); q in s.board ==> s.board[q].own == None
    ensures ComesOn(s.board, step.fate) == Served
  {
    hide Routing.Count, Routing.PathOf, Routing.Roomy, Inner;
  }

  lemma RegisterServes(s: Instant, step: HubStep, p: Routing.Path, m: Member)
    requires For(s, step.fate.data, p, Some(Routing.Registers)) && ComesOn(s.board, step.fate) == Served
    ensures var r := Inner(step.fate.data);
      r.Node? && r.name.Some? && ServicedOn(s.board, step.fate, m) == Routing.Registered(s.board, Routing.PathOf(r), m)
  {
    hide Routing.Count, Routing.PathOf, Routing.Roomy, Inner, Routing.Registered;
  }

  /** A request to unregister takes one registration of the sender's away, if there is any, and no other. */
  lemma Unregistering(s: Instant, step: HubStep, t: Instant, c: Connection, p: Routing.Path, q: Routing.Path)
    requires Matched(s) && Matched(t) && Moves(s, step, t) && Arrives(s, step, c)
    requires For(s, step.fate.data, p, Some(Routing.Unregisters)) && q in s.board
    requires For(s, Inner(step.fate.data), q, s.board[q].own)
    ensures t.board.Keys == s.board.Keys && c in s.members && s.members[c] != null
    ensures forall o, x :: o in t.board ==>
      var was := Registrations(s.board, o, x);
      Registrations(t.board, o, x) == if o == q && x == s.members[c] && was > 0 then was - 1 else was
  {
    UnregisterComes(s, step, p, q);
    BoardThen(s, step, t, c);
    UnregisterServes(s, step, p, q, s.members[c]);
    UnregisteredPaths(s.board, q, s.members[c]);
    hide Moves, Matched, Arrives, ComesOn, ServicedOn, Inner, For, Registrations, Routing.Unregistered;
    var m: Member := s.members[c];
    forall o, x | o in t.board
      ensures var was := Registrations(s.board, o, x);
        Registrations(t.board, o, x) == if o == q && x == m && was > 0 then was - 1 else was
    {
      UnregisteredCounts(s.board, q, m, o, x);
    }
  }

  lemma UnregisterComes(s: Instant, step: HubStep, p: Routing.Path, q: Routing.Path)
    requires For(s, step.fate.data, p, Some(Routing.Unregisters)) && q in s.board
    requires For(s, Inner(step.fate.data), q, s.board[q].own)
    ensures ComesOn(s.board, step.fate) == Served
  {
    hide Routing.Count, Routing.PathOf, Routing.Roomy, Inner;
  }

  lemma UnregisterServes(s: Instant, step: HubStep, p: Routing.Path, q: Routing.Path, m: Member)
    requires For(s, step.fate.data, p, Some(Routing.Unregisters)) && ComesOn(s.board, step.fate) == Served
    requires q in s.board && For(s, Inner(step.fate.data), q, s.board[q].own)
    ensures ServicedOn(s.board, step.fate, m) == Routing.Unregistered(s.board, q, m)
  {
    hide Routing.Count, Routing.PathOf, Routing.Roomy, Inner, Routing.Unregistered;
  }

  lemma MailForSender(s: Instant, step: HubStep, c: Connection, p: Routing.Path)
    requires Arrives(s, step, c) && Posts(s.scene, step) && For(s, step.fate.data, p, Some(Routing.Answers))
    requires Inner(step.fate.data).Node? && step.fate.answered
    ensures ComesOn(s.board, step.fate) == Served && MailAt(s, step) == Reply
  {
    hide Routing.Count, Routing.PathOf, Inner;
  }

  /** A question that is answered: one new message in the sender's queue, unless that is full, and in no other. */
  lemma Answering(g: Moment, step: HubStep, m: Queues.Message?, h: Moment, c: Connection, p: Routing.Path)
    requires Accounted(g) && Accounted(h) && Moved(g, step, m, h)
    requires Arrives(g.at, step, c) && For(g.at, step.fate.data, p, Some(Routing.Answers))
    requires Inner(step.fate.data).Node? && step.fate.answered
    ensures m != null && IsNew(g.bags, m) && c in g.at.members && g.at.members[c] in g.box
    ensures OneCopy(g.bags, h.bags, g.box[g.at.members[c]], m)
  {
    hide Moves, MailAt, Does, Matched, ComesOn, Posts, Dispatches, Actor, For, Inner, OneCopy, Balanced;
    ArrivesMeans(g.at, step, h.at, c);
    MailForSender(g.at, step, c, p);
    var was := g.at.members[c];
    var d := Mails(Reply, Key(was, g.box), m);
    assert Deeds(Reply, m, false, was, was, g.box) == [d];
    DoesOne(g.bags, d, g.box, h.bags);
    ReplyCopies(g.bags, g.box, Key(was, g.box), m);
  }

  /** The queue `key` gets a copy of `m`, if it has room, and no other does. */
  ghost predicate OneCopy(b: Bags, c: Bags, key: nat, m: Queues.Message) {
    && Balanced(b) && Balanced(c) && |b.lists| == |c.lists|
    && forall k :: 0 <= k < |b.lists| ==>
         var copy := if k == key && |b.lists[k]| < 29 then [m] else [];
         c.posted[k] == b.posted[k] + copy && c.lists[k] == b.lists[k] + copy
  }

  lemma ReplyCopies(b: Bags, box: Box, k: nat, m: Queues.Message)
    requires Balanced(b) && k < |b.lists|
    ensures OneCopy(b, Mailed(b, Reply, box, k, m), k, m)
  {
    MailedBalances(b, Reply, box, k, m);
  }

  // ---------------------------------------------------------------- what is refused

  /** What the hub carries out, and nothing else. */
  predicate Allowed(s: Instant, fate: Fate) {
    var data, r := fate.data, Inner(fate.data);
    && data.Node? && data.name.Some? && Routing.Count(data.child) <= 30 && Routing.PathOf(data) in s.board
    && match s.board[Routing.PathOf(data)].own
       case None => true
       case Some(Answers) => r.Node? && fate.answered
       case Some(Unregisters) =>
         r.Node? && r.name.Some? && Routing.Count(r.child) <= 30 && Routing.PathOf(r) in s.board
       case Some(Registers) =>
         && r.Node? && r.name.Some? && Routing.Roomy(r.child, 1)
         && (Routing.PathOf(r) in s.board ==> s.board[Routing.PathOf(r)].own == None)
  }

  lemma ServedExactly(s: Instant, fate: Fate)
    ensures ComesOn(s.board, fate) == Served <==> Allowed(s, fate)
    ensures ComesOn(s.board, fate) != Served ==> MailOn(s.board, fate) == NO_MAIL
    ensures ComesOn(s.board, fate) != Served ==> forall m :: ServicedOn(s.board, fate, m) == s.board
  {
    hide Routing.Count, Routing.PathOf, Routing.Roomy, Inner;
  }

  lemma RefusedView(v: View, fate: Fate)
    requires v.cs == IDLE && v.client && v.joined && fate.decoded == Some(v.recvCount)
    ensures var w := IncomingSpec(v, true, fate, false).0; w.cs == ABORTING && w.joined
  {
    hide ExecSpec, Succ;
    var u := v.(recvPending := true);
    ExecIs(u, 'R', fate, false);
    ExecIs(u.(cs := DELIVERING, recvMsg := fate.decoded), 's', fate, false);
  }

  lemma RefusedKeeps(s: Instant, step: HubStep, t: Instant, c: Connection)
    requires Matched(s) && Matched(t) && Moves(s, step, t) && Arrives(s, step, c)
    requires ComesOn(s.board, step.fate) != Served
    ensures c in s.members && c in t.members && t.members[c] == s.members[c]
    ensures c in t.scene.views && t.scene.views[c].cs == ABORTING && t.board == s.board
  {
    ArrivesMeans(s, step, t, c);
    ServedExactly(s, step.fate);
    hide IncomingSpec, ComesOn, Opened, Follows, ServicedOn, Posts, MailOn, Allowed;
    assert Sound(s.scene.views[c]);
    SceneThen(s, step, t, c);
    RefusedView(s.scene.views[c], step.fate);
  }

  /** A message that is not allowed changes no table and no queue, and its connection is aborted for it. */
  lemma Refusing(g: Moment, step: HubStep, m: Queues.Message?, h: Moment, c: Connection)
    requires Accounted(g) && Accounted(h) && Moved(g, step, m, h)
    requires Arrives(g.at, step, c) && !Allowed(g.at, step.fate)
    ensures h.bags == g.bags && h.box == g.box && h.at.board == g.at.board && h.at.members == g.at.members
    ensures c in h.at.scene.views && h.at.scene.views[c].cs == ABORTING
  {
    ArrivesMeans(g.at, step, h.at, c);
    ServedExactly(g.at, step.fate);
    RefusedKeeps(g.at, step, h.at, c);
    MembersSame(g.at, step, h.at, c);
    hide Moves, Does, Balanced, Matched, ComesOn, MailOn, Posts, Dispatches, Actor, Allowed;
    var was := g.at.members[c];
    assert Deeds(NO_MAIL, m, false, was, was, g.box) == [];
    NothingDone(g.bags, g.box, h.bags);
  }

  lemma MembersSame(s: Instant, step: HubStep, t: Instant, c: Connection)
    requires Matched(s) && Matched(t) && Moves(s, step, t) && Arrives(s, step, c)
    requires c in s.members && c in t.members && t.members[c] == s.members[c]
    ensures t.members == s.members
  {
    hide IncomingSpec, ComesOn, Opened, BoardAfter, ActedSpec, Posts, Sound;
  }

  // ---------------------------------------------------------------- the hub's own routes

  /** Which routes are the hub's own stays as it is, a new one is not, and nobody gets into one. */
  ghost predicate SameOwn(b: Routing.Board, c: Routing.Board) {
    && (forall p :: p in b ==> p in c && c[p].own == b[p].own) && (forall p :: p in c && p !in b ==> c[p].own == None)
    && (forall p, x :: p in b && b[p].own.Some? && x in c[p].members ==>
          Registrations(c, p, x) <= Registrations(b, p, x))
  }

  lemma RegisteredOwn(b: Routing.Board, q: Routing.Path, m: Member)
    requires q in b ==> b[q].own == None
    ensures SameOwn(b, Routing.Registered(b, q, m))
  {
    var c := Routing.Registered(b, q, m);
    forall p ensures p in c <==> p in b || p <= q { RegisteredPaths(b, q, m, p); }
    forall p, x | p in b && b[p].own.Some? && x in c[p].members
      ensures Registrations(c, p, x) <= Registrations(b, p, x)
    {
      RegisteredCounts(b, q, m, p, x);
    }
    hide Registrations, Routing.PlusMember;
  }

  lemma UnregisteredOwn(b: Routing.Board, q: Routing.Path, m: Member)
    ensures SameOwn(b, Routing.Unregistered(b, q, m))
  {
    hide Registrations;
    var c := Routing.Unregistered(b, q, m);
    forall p, x | p in c && x in c[p].members ensures Registrations(c, p, x) <= Registrations(b, p, x) {
      UnregisteredCounts(b, q, m, p, x);
    }
  }

  lemma ClearedOwn(b: Routing.Board, m: Member)
    ensures SameOwn(b, Routing.Cleared(b, m))
  {
    hide Registrations;
    var c := Routing.Cleared(b, m);
    forall p, x | p in c && x in c[p].members ensures Registrations(c, p, x) <= Registrations(b, p, x) {
      ClearedCounts(b, m, p, x);
    }
  }

  lemma ServicedOwn(b: Routing.Board, fate: Fate, m: Member)
    ensures SameOwn(b, ServicedOn(b, fate, m))
  {
    hide SameOwn, Routing.Registered, Routing.Unregistered, Routing.Count, Routing.PathOf, Routing.Roomy, Inner;
    NothingOwn(b);
    if ComesOn(b, fate) == Served {
      match b[TargetOn(b, fate.data).value].own {
        case Some(Registers) => RegisteredOwn(b, Routing.PathOf(Inner(fate.data)), m);
        case Some(Unregisters) => UnregisteredOwn(b, Routing.PathOf(Inner(fate.data)), m);
        case _ =>
      }
    }
  }

  lemma NothingOwn(b: Routing.Board)
    ensures SameOwn(b, b)
  {}

  /** Over every step, whoever acts. */
  lemma OwnStays(s: Instant, step: HubStep, t: Instant)
    requires Moves(s, step, t)
    ensures SameOwn(s.board, t.board)
  {
    hide SameOwn, Follows, ServicedOn, Routing.Cleared, Posts, ComesOn;
    NothingOwn(s.board);
    var c := Actor(s.scene, step);
    if c != null && c in s.members && s.members[c] != null {
      ServicedOwn(s.board, step.fate, s.members[c]);
      ClearedOwn(s.board, s.members[c]);
    }
  }

  // ---------------------------------------------------------------- over a run

  /** Servicing a message changes the registrations of its sender alone. */
  lemma ServicedCounts(b: Routing.Board, fate: Fate, m: Member, o: Routing.Path, x: Member)
    requires x != m
    ensures Registrations(ServicedOn(b, fate, m), o, x) == Registrations(b, o, x)
  {
    hide Registrations, Routing.Registered, Routing.Unregistered, Routing.Count, Routing.PathOf, Routing.Roomy, Inner;
    if ComesOn(b, fate) == Served {
      match b[TargetOn(b, fate.data).value].own {
        case Some(Registers) => RegisteredCounts(b, Routing.PathOf(Inner(fate.data)), m, o, x);
        case Some(Unregisters) => UnregisteredCounts(b, Routing.PathOf(Inner(fate.data)), m, o, x);
        case _ =>
      }
    }
  }

  lemma AfterCounts(b: Routing.Board, services: bool, fate: Fate, was: Routing.Member?, now: Routing.Member?,
      o: Routing.Path, x: Member)
    ensures x != was ==> Registrations(BoardAfter(b, services, fate, was, now), o, x) == Registrations(b, o, x)
    ensures !services && was != null && now != was && x == was ==>
      Registrations(BoardAfter(b, services, fate, was, now), o, x) == 0
  {
    hide Registrations, ServicedOn, Routing.Cleared;
    if was != null {
      if x != was { ServicedCounts(b, fate, was, o, x); }
      ClearedCounts(b, was, o, x);
    }
  }

  /** A step changes nobody's registrations but those of the acting connection's member. */
  lemma OthersKeep(s: Instant, step: HubStep, t: Instant, c: Connection, o: Routing.Path)
    requires Matched(s) && Moves(s, step, t) && Actor(s.scene, step) != c && c in s.members && s.members[c] != null
    ensures c in t.members && t.members[c] == s.members[c]
    ensures Registrations(t.board, o, s.members[c]) == Registrations(s.board, o, s.members[c])
  {
    hide Follows, Registrations, BoardAfter, Posts, ComesOn, Opened, Sound, Actor;
    var d := Actor(s.scene, step);
    if d != null && d in s.members {
      AfterCounts(s.board, Posts(s.scene, step), step.fate, s.members[d], t.members[d], o, s.members[c]);
    }
  }

  /** Over every run a registration lasts until its own connection does something about it. */
  lemma {:induction false} StaysRegistered(steps: seq<HubStep>, instants: seq<Instant>, c: Connection, o: Routing.Path,
      i: nat, j: nat)
    requires IsHubRun(steps, instants) && i <= j <= |steps|
    requires c in instants[i].members && instants[i].members[c] != null
    requires forall k :: i <= k < j ==> Actor(instants[k].scene, steps[k]) != c
    ensures c in instants[j].members && instants[j].members[c] == instants[i].members[c]
    ensures var x := instants[i].members[c];
      Registrations(instants[j].board, o, x) == Registrations(instants[i].board, o, x)
    decreases j - i
  {
    hide Moves, Stopped, Matched, Registrations, Actor;
    if i == j {
    } else {
      StaysRegistered(steps, instants, c, o, i, j - 1);
      assert Matched(instants[j - 1]) && Moves(instants[j - 1], steps[j - 1], instants[j]);
      OthersKeep(instants[j - 1], steps[j - 1], instants[j], c, o);
    }
  }

  /** Servicing leaves a connection with its client. */
  lemma ServicingKeeps(step: HubStep, v: View, comes: Servicing)
    requires Services(step, v) && Sound(v)
    ensures ActedSpec(step, v, comes).joined
  {
    hide ExecSpec;
    match step
    case Happens(_, ev, fate) => ExecIs(v, ev, fate, comes == Served);
    case Reads(_, _, fate) =>
      var u := v.(recvPending := true);
      ExecIs(u, 'R', fate, comes == Served);
      ExecIs(u.(cs := DELIVERING, recvMsg := fate.decoded), 's', fate, comes == Served);
  }

  lemma PostsKeeps(s: Instant, step: HubStep, t: Instant, c: Connection)
    requires Matched(s) && Matched(t) && Moves(s, step, t) && Actor(s.scene, step) == c && Posts(s.scene, step)
    ensures c in s.members && c in t.members && t.members[c] == s.members[c]
  {
    hide ActedSpec, BoardAfter, ComesOn, Opened, Services;
    assert Sound(s.scene.views[c]);
    ServicingKeeps(step, s.scene.views[c], ComesOn(s.board, step.fate));
  }

  /** A connection that parts with its member, whatever step it is, leaves no registration of it behind. */
  lemma Parting(s: Instant, step: HubStep, t: Instant, c: Connection, o: Routing.Path)
    requires Matched(s) && Matched(t) && Moves(s, step, t) && Actor(s.scene, step) == c
    requires c in s.members && s.members[c] != null && c in t.members && t.members[c] != s.members[c]
    ensures Registrations(t.board, o, s.members[c]) == 0
  {
    hide Follows, Registrations, BoardAfter, Posts, ComesOn, Matched;
    if Posts(s.scene, step) { PostsKeeps(s, step, t, c); }
    AfterCounts(s.board, false, step.fate, s.members[c], t.members[c], o, s.members[c]);
  }

  // The same for the hub with its queues.

  function StepsOf(errands: seq<Errand>, moments: seq<Moment>, n: nat): seq<HubStep>
    requires n <= |errands| && n <= |moments|
  {
    seq(n, i requires 0 <= i < n => StepAt(moments[i], errands[i]))
  }

  function InstantsOf(moments: seq<Moment>): seq<Instant> {
    seq(|moments|, i requires 0 <= i < |moments| => moments[i].at)
  }

  lemma HubRunOf(errands: seq<Errand>, moments: seq<Moment>, made: seq<Queues.Message?>)
    requires AccountedRun(errands, moments, made)
    ensures IsHubRun(StepsOf(errands, moments, |made|), InstantsOf(moments))
  {
    hide StepAt, Moves, Stopped, Matched, Posted;
    var steps, instants := StepsOf(errands, moments, |made|), InstantsOf(moments);
    forall i | 0 <= i <= |steps| ensures Matched(instants[i]) { assert Accounted(moments[i]); }
    forall i | 0 <= i < |steps|
      ensures Moves(instants[i], steps[i], instants[i + 1]) && !Stopped(instants[i], steps[i])
    {
      assert Moved(moments[i], StepAt(moments[i], errands[i]), made[i], moments[i + 1]);
    }
  }

  /**
   Whoever is registered for a path, and has not been heard of since, finds a copy in the queue for every
   registration when somebody's message for that path is carried out and there is room for all its copies.
   */
  lemma RegisteredGetsIt(errands: seq<Errand>, moments: seq<Moment>, made: seq<Queues.Message?>,
      c: Connection, i: nat, sender: Connection, j: nat, p: Routing.Path)
    returns (n: nat)
    requires AccountedRun(errands, moments, made) && i <= j < |made|
    requires c in moments[i].at.members && moments[i].at.members[c] != null
    requires forall k :: i <= k < j ==> Actor(moments[k].at.scene, StepAt(moments[k], errands[k])) != c
    requires var step := StepAt(moments[j], errands[j]);
      Arrives(moments[j].at, step, sender) && For(moments[j].at, step.fate.data, p, None)
    requires Registrations(moments[i].at.board, p, moments[i].at.members[c]) > 0
    ensures var x := moments[i].at.members[c];
      Found(moments[j], moments[j + 1], made[j], p, x, Registrations(moments[i].at.board, p, x), n)
  {
    HubRunOf(errands, moments, made);
    var steps, instants := StepsOf(errands, moments, |made|), InstantsOf(moments);
    hide IsHubRun, StepAt, Moved, Accounted, Arrives, Copied, Actor, Found;
    StaysRegistered(steps, instants, c, p, i, j);
    assert Accounted(moments[j]) && Accounted(moments[j + 1]);
    var step := StepAt(moments[j], errands[j]);
    assert Moved(moments[j], step, made[j], moments[j + 1]);
    n := DeliversTo(moments[j], step, made[j], moments[j + 1], sender, p);
    Finds(moments[j], moments[j + 1], made[j], p, moments[i].at.members[c], n);
  }

  /** The member `x` finds `copies` of the message in its queue, if that was carried to the end of the list. */
  ghost predicate Found(g: Moment, h: Moment, m: Queues.Message?, p: Routing.Path, x: Member, copies: nat, n: nat) {
    && m != null && p in g.at.board && n <= |g.at.board[p].members|
    && Balanced(g.bags) && Balanced(h.bags) && x in g.box && g.box[x] < |g.bags.posted| <= |h.bags.posted|
    && (n == |g.at.board[p].members| ==>
          h.bags.posted[g.box[x]] == g.bags.posted[g.box[x]] + seq(copies, _ => m))
  }

  lemma Finds(g: Moment, h: Moment, m: Queues.Message?, p: Routing.Path, x: Member, n: nat)
    requires p in g.at.board && Registrations(g.at.board, p, x) > 0
    requires var ms := g.at.board[p].members;
      ms == [] || (m != null && Copied(g.bags, h.bags, g.box, ms, n, m))
    ensures Found(g, h, m, p, x, Registrations(g.at.board, p, x), n)
  {
    var ms := g.at.board[p].members;
    Counting.NoTimes(ms, x);
    if n == |ms| { assert ms[..n] == ms; }
  }

  // ---------------------------------------------------------------- what is sent, thrown away and begun

  /** A round of the idle connection's sending task, for a message that waits. */
  ghost predicate Writes(g: Moment, step: HubStep, c: Connection) {
    && step.Sends? && step.queued && Actor(g.at.scene, step) == c && g.at.scene.stage[c] == 3
    && g.at.scene.views[c].cs == IDLE && c in g.at.members && g.at.members[c] in g.box
    && g.box[g.at.members[c]] < |g.bags.lists| && g.bags.lists[g.box[g.at.members[c]]] != []
  }

  lemma SendView(v: View, delivered: bool, fate: Fate)
    requires v.cs == IDLE && v.joined
    ensures OutgoingSpec(v, true, delivered, fate).0 ==
      v.(cs := if delivered then IDLE else ABORTING, sendMsg := false,
         sendCount := Succ(v.sendCount), sent := v.sent + [v.sendCount])
  {
    hide ExecSpec, Succ;
    var u := v.(sendMsg := true);
    ExecIs(u, 'Q', fate, false);
    var w := Sending(u.(cs := SENDING));
    ExecIs(w, 'e', fate, false);
    ExecIs(w, '0', fate, false);
  }

  lemma WritesMeans(g: Moment, step: HubStep, m: Queues.Message?, h: Moment, c: Connection)
    requires Accounted(g) && Accounted(h) && Moved(g, step, m, h) && Writes(g, step, c)
    ensures c in h.at.members && h.at.members[c] == g.at.members[c] && c in h.at.scene.views
    ensures h.at.scene.views[c] == OutgoingSpec(g.at.scene.views[c], true, step.delivered, step.fate).0
    ensures MailAt(g.at, step) == NO_MAIL && (Dispatches(g.at.scene, step) <==> step.delivered)
  {
    hide OutgoingSpec, BoardAfter, ComesOn, Opened, Balanced, Posted, MailOn;
    assert Sound(g.at.scene.views[c]);
    SendView(g.at.scene.views[c], step.delivered, step.fate);
  }

  /**
   A message that is sent is the oldest in the queue, and it goes out under the connection's next number. If
   sending fails, the message stays and the connection is aborted.
   */
  lemma Writing(g: Moment, step: HubStep, m: Queues.Message?, h: Moment, c: Connection)
    requires Accounted(g) && Accounted(h) && Moved(g, step, m, h) && Writes(g, step, c)
    ensures var v, k := g.at.scene.views[c], g.box[g.at.members[c]];
      && c in h.at.scene.views
      && h.at.scene.views[c] == v.(cs := if step.delivered then IDLE else ABORTING, sendMsg := false,
                                   sendCount := Succ(v.sendCount), sent := v.sent + [v.sendCount])
      && h.bags == if step.delivered
                   then g.bags.(lists := g.bags.lists[k := g.bags.lists[k][1..]],
                                taken := g.bags.taken[k := g.bags.taken[k] + [g.bags.lists[k][0]]])
                   else g.bags
  {
    WritesMeans(g, step, m, h, c);
    assert Sound(g.at.scene.views[c]);
    SendView(g.at.scene.views[c], step.delivered, step.fate);
    hide Moves, OutgoingSpec, Does, Balanced, Matched, Posted, MailAt, Dispatches, Actor;
    WriteDeeds(g, step, m, h, c);
  }

  lemma WriteDeeds(g: Moment, step: HubStep, m: Queues.Message?, h: Moment, c: Connection)
    requires Accounted(g) && Writes(g, step, c) && Posted(g, step, m, h)
    requires c in h.at.members && h.at.members[c] == g.at.members[c]
    requires MailAt(g.at, step) == NO_MAIL && (Dispatches(g.at.scene, step) <==> step.delivered)
    ensures var k := g.box[g.at.members[c]];
      h.bags == if step.delivered
                then g.bags.(lists := g.bags.lists[k := g.bags.lists[k][1..]],
                             taken := g.bags.taken[k := g.bags.taken[k] + [g.bags.lists[k][0]]])
                else g.bags
  {
    hide Does, Matched, MailAt, Dispatches, Actor;
    var was := g.at.members[c];
    if step.delivered {
      assert Deeds(NO_MAIL, m, true, was, was, g.box) == [Takes(Key(was, g.box))];
      DoesOne(g.bags, Takes(Key(was, g.box)), g.box, h.bags);
    } else {
      assert Deeds(NO_MAIL, m, false, was, was, g.box) == [];
      NothingDone(g.bags, g.box, h.bags);
    }
  }

  lemma DispatchKeeps(s: Instant, step: HubStep, t: Instant, c: Connection)
    requires Matched(s) && Matched(t) && Moves(s, step, t) && Actor(s.scene, step) == c && Dispatches(s.scene, step)
    ensures c in s.members && c in t.members && t.members[c] == s.members[c]
  {
    hide OutgoingSpec, BoardAfter, ComesOn, Opened;
    assert Sound(s.scene.views[c]);
    SendView(s.scene.views[c], step.delivered, step.fate);
  }

  /** A connection that parts with its member throws away what is waiting for it, and touches no other queue. */
  lemma PartingDrains(g: Moment, step: HubStep, m: Queues.Message?, h: Moment, c: Connection)
    requires Accounted(g) && Accounted(h) && Moved(g, step, m, h) && Actor(g.at.scene, step) == c
    requires c in g.at.members && g.at.members[c] != null && c in h.at.members && h.at.members[c] != g.at.members[c]
    ensures g.at.members[c] in g.box && h.box == g.box
    ensures var k := g.box[g.at.members[c]];
      && k < |g.bags.lists| == |g.bags.lost|
      && h.bags == g.bags.(lists := g.bags.lists[k := []], lost := g.bags.lost[k := g.bags.lost[k] + g.bags.lists[k]])
  {
    if Posts(g.at.scene, step) { PostsKeeps(g.at, step, h.at, c); }
    if Dispatches(g.at.scene, step) { DispatchKeeps(g.at, step, h.at, c); }
    hide Follows, BoardAfter, Posts, ComesOn, Matched, Dispatches, Actor, Posted, Balanced;
    assert MailAt(g.at, step) == NO_MAIL && h.at.members[c] == null;
    hide Moves, MailAt;
    PartDeeds(g, step, m, h, c);
  }

  lemma PartDeeds(g: Moment, step: HubStep, m: Queues.Message?, h: Moment, c: Connection)
    requires Accounted(g) && Posted(g, step, m, h) && Actor(g.at.scene, step) == c
    requires c in g.at.members && g.at.members[c] != null && c in h.at.members && h.at.members[c] == null
    requires MailAt(g.at, step) == NO_MAIL && !Dispatches(g.at.scene, step)
    ensures g.at.members[c] in g.box && h.box == g.box
    ensures var k := g.box[g.at.members[c]];
      && k < |g.bags.lists| == |g.bags.lost|
      && h.bags == g.bags.(lists := g.bags.lists[k := []], lost := g.bags.lost[k := g.bags.lost[k] + g.bags.lists[k]])
  {
    hide Matched, Does, Actor, MailAt, Dispatches;
    var was, k := g.at.members[c], Key(g.at.members[c], g.box);
    assert Deeds(NO_MAIL, m, false, was, null, g.box) == [Closes(k)];
    DoesOne(g.bags, Closes(k), g.box, h.bags);
  }

  /** A connection that gets a member gets a new, empty queue with it. */
  lemma JoiningOpens(g: Moment, step: HubStep, m: Queues.Message?, h: Moment, c: Connection)
    requires Accounted(g) && Moved(g, step, m, h) && Actor(g.at.scene, step) == c
    requires c in g.at.members && c in h.at.members && h.at.members[c] != null && h.at.members[c] != g.at.members[c]
    ensures step.Opens? && h.at.members[c] !in g.box && h.box == g.box[h.at.members[c] := |g.bags.lists|]
    ensures h.bags == Bags(g.bags.lists + [[]], g.bags.posted + [[]], g.bags.taken + [[]], g.bags.lost + [[]])
    ensures |g.bags.taken| == |g.bags.lists|
  {
    hide Follows, BoardAfter, ComesOn, Matched, Does, Actor;
    assert MailAt(g.at, step) == NO_MAIL && !Dispatches(g.at.scene, step);
    assert Deeds(NO_MAIL, m, false, null, h.at.members[c], g.box) == [Widens];
    DoesOne(g.bags, Widens, g.box, h.bags);
  }

  // ---------------------------------------------------------------- what has been sent is what has been taken

  /** As many numbers have gone out on an idle connection as messages have been taken out of its queue. */
  ghost predicate Even(g: Moment, c: Connection) {
    c in g.at.scene.views && c in g.at.members ==>
      var v, x := g.at.scene.views[c], g.at.members[c];
      && (x != null && (v.cs == REGISTERING || v.cs == IDLE) ==>
            x in g.box && g.box[x] < |g.bags.taken| && |v.sent| == |g.bags.taken[g.box[x]]|)
      && (ACCEPTING <= v.cs <= TUNING ==> v.sent == [])
  }

  ghost predicate Tally(g: Moment) { forall c :: c in g.at.scene.views ==> Even(g, c) }

  lemma DeedsTake(b: Bags, mail: Mail, m: Queues.Message?, sends: bool, was: Routing.Member?, now: Routing.Member?,
      box: Box, c: Bags, k: nat)
    requires Does(b, Deeds(mail, m, sends, was, now, box), box, c) && Balanced(b) && k < |b.taken|
    requires !sends || k != Key(was, box)
    ensures k < |c.taken| && c.taken[k] == b.taken[k]
  {
    hide Did, Doable, Balanced;
    TakesOnly(b, Deeds(mail, m, sends, was, now, box), box, c, k);
  }

  lemma {:induction false} TakesOnly(b: Bags, deeds: seq<Deed>, box: Box, c: Bags, k: nat)
    requires Does(b, deeds, box, c) && Balanced(b) && k < |b.taken|
    requires forall d :: d in deeds && d.Takes? ==> d.k != k
    ensures k < |c.taken| && c.taken[k] == b.taken[k]
    decreases |deeds|
  {
    if deeds == [] {
    } else {
      hide Does, Balanced;
      DoesFirst(b, deeds, box, c);
      DidGrows(b, deeds[0], box);
      GrowsMeans(b, Did(b, deeds[0], box));
      DidTakes(b, deeds[0], box, k);
      TakesOnly(Did(b, deeds[0], box), deeds[1..], box, c, k);
    }
  }

  lemma DoesFirst(b: Bags, deeds: seq<Deed>, box: Box, c: Bags)
    requires Does(b, deeds, box, c) && deeds != []
    ensures Doable(b, deeds[0], box) && Does(Did(b, deeds[0], box), deeds[1..], box, c)
  {}

  lemma DidTakes(b: Bags, d: Deed, box: Box, k: nat)
    requires Doable(b, d, box) && k < |b.taken| && (d.Takes? ==> d.k != k)
    ensures k < |Did(b, d, box).taken| && Did(b, d, box).taken[k] == b.taken[k]
  {
    hide Deposited, Addressed;
  }

  /** Only close events happen to an opened connection besides what its two tasks do. */
  predicate OfTasks(step: HubStep) { step.Happens? ==> step.ev == 'r' || step.ev == 'w' }

  /** `w` comes of `v` without a number going out, if it is still opening or idle. */
  predicate Unsent(v: View, w: View) {
    && (w.cs == REGISTERING || w.cs == IDLE ==> w.sent == v.sent && v.cs in {KEYCHECK, REGISTERING, IDLE})
    && (ACCEPTING <= w.cs <= TUNING ==> w.sent == v.sent && ACCEPTING <= v.cs <= TUNING)
  }

  lemma CloseSent(v: View, ev: char, fate: Fate, served: bool)
    requires Stage(3, v) && (ev == 'r' || ev == 'w')
    ensures Unsent(v, ExecSpec(v, ev, fate, served, 1))
  {
    hide ExecSpec, Goes;
    ExecIs(v, ev, fate, served);
  }

  lemma ReadSent(v: View, arrived: bool, fate: Fate, served: bool)
    requires Stage(3, v) && Sound(v)
    ensures Unsent(v, IncomingSpec(v, arrived, fate, served).0)
  {
    if v.cs == IDLE && arrived {
      IdleSent(v, fate, served);
    } else if arrived && !IsDone(v) {
      AwaySent(v, fate, served);
    }
  }

  lemma IdleSent(v: View, fate: Fate, served: bool)
    requires v.cs == IDLE && Sound(v)
    ensures Unsent(v, IncomingSpec(v, true, fate, served).0)
  {
    hide ExecSpec, Succ;
    var u := v.(recvPending := true);
    ExecIs(u, 'R', fate, served);
    ExecIs(u.(cs := DELIVERING, recvMsg := fate.decoded), 's', fate, served);
  }

  lemma AwaySent(v: View, fate: Fate, served: bool)
    requires Stage(3, v) && Sound(v) && v.cs != IDLE && !IsDone(v)
    ensures Unsent(v, IncomingSpec(v, true, fate, served).0)
  {
    hide ExecSpec, Goes;
    var u := v.(recvPending := true);
    ExecIs(u, 'R', fate, served);
    ExecIs(ExecSpec(u, 'R', fate, served, 1), 's', fate, served);
  }

  /** Numbers go out with the sending task alone. */
  lemma SentStays(step: HubStep, v: View, comes: Servicing)
    requires Stage(3, v) && Sound(v) && !step.Accept? && !step.Opens? && OfTasks(step)
    requires !(step.Sends? && step.queued)
    ensures Unsent(v, ActedSpec(step, v, comes))
  {
    hide ExecSpec, IncomingSpec;
    match step
    case Happens(_, ev, fate) => CloseSent(v, ev, fate, comes == Served);
    case Reads(_, arrived, fate) => ReadSent(v, arrived, fate, comes == Served);
    case _ =>
  }

  lemma OpeningSent(stage: nat, v: View, fate: Fate, served: bool)
    requires stage < 3 && Stage(stage, v)
    ensures Unsent(v, ExecSpec(v, Opener(stage), fate, served, 1))
  {
    hide ExecSpec;
    if v.cs == ACCEPTING {
      Single(v, 'P', KeyPrep, fate, served);
    } else if v.cs == KEYCHECK {
      Tunes(v, fate, served);
    } else if v.cs == REGISTERING {
      Single(v, '1', Established, fate, served);
    } else {
      Shuts(v, '1', fate, served);
    }
  }

  lemma LostSending(v: View, queued: bool, delivered: bool, fate: Fate)
    requires Stage(3, v) && Sound(v) && v.cs != IDLE
    ensures var w := OutgoingSpec(v, queued, delivered, fate).0; IsDone(w) || w.cs > IDLE
  {
    hide ExecSpec;
    var u := v.(sendMsg := true);
    ExecIs(u, 'Q', fate, false);
    var w := ExecSpec(u, 'Q', fate, false, 1);
    ExecIs(Sending(w), 'e', fate, false);
    ExecIs(Sending(w), '0', fate, false);
  }

  lemma DispatcherHasMember(s: Instant, step: HubStep)
    requires Matched(s) && Dispatches(s.scene, step)
    ensures var d := Actor(s.scene, step); d != null && d in s.members && s.members[d] != null
  {
    hide Opened;
    assert Sound(s.scene.views[Actor(s.scene, step)]);
  }

  /** A step takes from no queue but that of the acting connection's member, which another's is not. */
  lemma OthersTaken(g: Moment, step: HubStep, m: Queues.Message?, h: Moment, c: Connection)
    requires Accounted(g) && Moved(g, step, m, h) && c != Actor(g.at.scene, step)
    requires c in g.at.members && g.at.members[c] != null
    ensures var x := g.at.members[c];
      && x in g.box && x in h.box && h.box[x] == g.box[x] < |g.bags.taken| && g.box[x] < |h.bags.taken|
      && h.bags.taken[g.box[x]] == g.bags.taken[g.box[x]]
  {
    var d, x := Actor(g.at.scene, step), g.at.members[c];
    if Dispatches(g.at.scene, step) { DispatcherHasMember(g.at, step); }
    hide Moves, Does, Actor, MailAt, Deeds, Opened, Sound, Dispatches;
    if d != null && d in g.at.members && d in h.at.members {
      var was, now := g.at.members[d], h.at.members[d];
      DeedsTake(g.bags, MailAt(g.at, step), m, Dispatches(g.at.scene, step), was, now, g.box, h.bags, g.box[x]);
    }
  }

  /** Whoever does not act keeps its count. */
  lemma EvenOther(g: Moment, step: HubStep, m: Queues.Message?, h: Moment, c: Connection)
    requires Accounted(g) && Accounted(h) && Moved(g, step, m, h) && Even(g, c)
    requires c != Actor(g.at.scene, step) && c in g.at.scene.views && c in h.at.scene.views
    requires h.at.scene.views[c] == g.at.scene.views[c]
    ensures Even(h, c)
  {
    MemberStays(g.at, step, h.at, c);
    if c in g.at.members && g.at.members[c] != null { OthersTaken(g, step, m, h, c); }
    hide Moved, Accounted, Actor;
  }

  lemma MemberStays(s: Instant, step: HubStep, t: Instant, c: Connection)
    requires Matched(s) && Moves(s, step, t) && c != Actor(s.scene, step) && c in s.scene.views
    ensures c in s.members && c in t.members && t.members[c] == s.members[c]
  {
    hide Follows, BoardAfter, ComesOn, Posts, Actor, Opened, Sound;
  }

  lemma ActorTaken(g: Moment, step: HubStep, m: Queues.Message?, h: Moment, c: Connection)
    requires Accounted(g) && Posted(g, step, m, h) && Actor(g.at.scene, step) == c && !Dispatches(g.at.scene, step)
    requires c in g.at.members && g.at.members[c] != null && c in h.at.members && h.at.members[c] == g.at.members[c]
    ensures var x := g.at.members[c];
      && x in g.box && h.box == g.box && g.box[x] < |g.bags.taken| && g.box[x] < |h.bags.taken|
      && h.bags.taken[g.box[x]] == g.bags.taken[g.box[x]]
  {
    hide Does, Actor, MailAt, Deeds, Dispatches, Matched;
    var x := g.at.members[c];
    DeedsTake(g.bags, MailAt(g.at, step), m, false, x, x, g.box, h.bags, g.box[x]);
  }

  lemma NewMemberSent(s: Instant, step: HubStep, t: Instant, c: Connection)
    requires Matched(s) && Moves(s, step, t) && Actor(s.scene, step) == c && c in s.members && c in t.members
    requires t.members[c] != null && t.members[c] != s.members[c]
    ensures !(REGISTERING <= s.scene.views[c].cs <= IDLE)
  {
    hide Follows, BoardAfter, ComesOn, Posts, Actor, Opened;
    assert Sound(s.scene.views[c]);
  }

  lemma MemberMeans(s: Instant, c: Connection)
    requires Matched(s) && c in s.members && s.members[c] != null
    ensures s.scene.views[c].cs > TUNING
  {
    hide Opened;
    assert Sound(s.scene.views[c]);
  }

  lemma EvenJoining(g: Moment, step: HubStep, m: Queues.Message?, h: Moment, c: Connection)
    requires Accounted(g) && Moved(g, step, m, h) && Even(g, c) && Actor(g.at.scene, step) == c
    requires c in g.at.members && c in h.at.members && h.at.members[c] != null && h.at.members[c] != g.at.members[c]
    requires c in h.at.scene.views && Unsent(g.at.scene.views[c], h.at.scene.views[c])
    ensures Even(h, c)
  {
    hide Moves, Actor, Posted, Balanced, Matched, Accounted, Moved;
    AccountedMeans(g);
    MovedMeans(g, step, m, h);
    NewMemberSent(g.at, step, h.at, c);
    JoiningOpens(g, step, m, h, c);
  }

  /** A step that sends nothing leaves its connection's count even. */
  lemma EvenQuiet(g: Moment, step: HubStep, m: Queues.Message?, h: Moment, c: Connection)
    requires Accounted(g) && Accounted(h) && Moved(g, step, m, h) && Even(g, c) && Actor(g.at.scene, step) == c
    requires !Dispatches(g.at.scene, step) && c in g.at.members && c in h.at.members
    requires c in h.at.scene.views && Unsent(g.at.scene.views[c], h.at.scene.views[c])
    ensures Even(h, c)
  {
    hide Moves, Actor, Dispatches, Posted, Balanced, Matched, Accounted, Moved;
    AccountedMeans(g);
    MovedMeans(g, step, m, h);
    var was, now := g.at.members[c], h.at.members[c];
    if now != null && now != was {
      EvenJoining(g, step, m, h, c);
    } else if now != null {
      MemberMeans(g.at, c);
      ActorTaken(g, step, m, h, c);
    }
  }

  lemma EvenWriting(g: Moment, step: HubStep, m: Queues.Message?, h: Moment, c: Connection)
    requires Accounted(g) && Accounted(h) && Moved(g, step, m, h) && Even(g, c) && Writes(g, step, c)
    ensures Even(h, c)
  {
    hide Moved, Accounted, Matched, Actor, OutgoingSpec, MailAt, Dispatches, Succ, Moves, Posted;
    AccountedMeans(g);
    MovedMeans(g, step, m, h);
    Writing(g, step, m, h, c);
    WritesMeans(g, step, m, h, c);
    WriterKeepsBox(g, step, m, h, c);
  }

  lemma WriterKeepsBox(g: Moment, step: HubStep, m: Queues.Message?, h: Moment, c: Connection)
    requires Posted(g, step, m, h) && Actor(g.at.scene, step) == c && c in g.at.members && c in h.at.members
    requires h.at.members[c] == g.at.members[c]
    ensures h.box == g.box
  {
    hide Does, Deeds, MailAt, Dispatches, Actor;
  }

  /** The acting connection's view behind a step that sends nothing. */
  lemma ActorUnsent(s: Instant, step: HubStep, t: Instant, c: Connection)
    requires Matched(s) && Moves(s, step, t) && Actor(s.scene, step) == c && OfTasks(step)
    requires !(step.Sends? && step.queued && s.scene.stage[c] == 3)
    ensures c in t.scene.views && Unsent(s.scene.views[c], t.scene.views[c]) && !Dispatches(s.scene, step)
  {
    var stage, v, comes := s.scene.stage[c], s.scene.views[c], ComesOn(s.board, step.fate);
    assert Stage(stage, v) && Sound(v) && stage <= 3;
    hide ExecSpec, ActedSpec, BoardAfter, ComesOn, Posts, Sound, Stage, Opened;
    assert Unsent(v, v);
    if step.Opens? && stage < 3 {
      OpeningSent(stage, v, step.fate, comes == Served);
    } else if !step.Opens? && stage == 3 {
      SentStays(step, v, comes);
    }
  }

  lemma ActorLost(s: Instant, step: HubStep, t: Instant, c: Connection)
    requires Matched(s) && Moves(s, step, t) && Actor(s.scene, step) == c
    requires step.Sends? && s.scene.stage[c] == 3 && s.scene.views[c].cs != IDLE
    ensures c in t.scene.views && Unsent(s.scene.views[c], t.scene.views[c]) && !Dispatches(s.scene, step)
  {
    var v := s.scene.views[c];
    assert Stage(3, v) && Sound(v);
    hide OutgoingSpec, BoardAfter, ComesOn, Posts, Sound, Stage, Opened;
    LostSending(v, step.queued, step.delivered, step.fate);
  }

  /** Every errand keeps the tally. */
  lemma TallyNext(g: Moment, e: Errand, m: Queues.Message?, h: Moment)
    requires Accounted(g) && Accounted(h) && Moved(g, StepAt(g, e), m, h) && Tally(g)
    ensures Tally(h)
  {
    var step := StepAt(g, e);
    forall c | c in h.at.scene.views ensures Even(h, c) { EvenNext(g, e, m, h, c); }
  }

  lemma EvenNext(g: Moment, e: Errand, m: Queues.Message?, h: Moment, c: Connection)
    requires Accounted(g) && Accounted(h) && Moved(g, StepAt(g, e), m, h) && Tally(g) && c in h.at.scene.views
    ensures Even(h, c)
  {
    var step := StepAt(g, e);
    if Actor(g.at.scene, step) == c {
      ActorIsMember(g.at, step, h.at, c);
      assert Even(g, c);
      hide Moved, Accounted, Even, Tally, Unsent, Dispatches;
      if step.Sends? && g.at.scene.stage[c] == 3 && g.at.scene.views[c].cs == IDLE && step.queued {
        EvenWriting(g, step, m, h, c);
      } else if step.Sends? && g.at.scene.stage[c] == 3 && step.queued {
        AccountedMeans(g);
        MovedMeans(g, step, m, h);
        ActorLost(g.at, step, h.at, c);
        EvenQuiet(g, step, m, h, c);
      } else {
        AccountedMeans(g);
        MovedMeans(g, step, m, h);
        ActorUnsent(g.at, step, h.at, c);
        EvenQuiet(g, step, m, h, c);
      }
    } else {
      Bystander(g, step, m, h, c);
    }
  }

  lemma AccountedMeans(g: Moment)
    requires Accounted(g)
    ensures Matched(g.at) && Balanced(g.bags)
  {}

  lemma MovedMeans(g: Moment, step: HubStep, m: Queues.Message?, h: Moment)
    requires Moved(g, step, m, h)
    ensures Moves(g.at, step, h.at) && Posted(g, step, m, h)
  {}

  lemma ActorIsMember(s: Instant, step: HubStep, t: Instant, c: Connection)
    requires Matched(s) && Moves(s, step, t) && Actor(s.scene, step) == c
    ensures c in s.scene.views && c in s.scene.stage && c in s.members && c in t.members
  {
    hide Follows, BoardAfter, ComesOn, Posts, Opened, Sound;
  }

  /** A connection that does not act is as it was, or has just been handed out. */
  lemma Bystander(g: Moment, step: HubStep, m: Queues.Message?, h: Moment, c: Connection)
    requires Accounted(g) && Accounted(h) && Moved(g, step, m, h) && Tally(g) && c in h.at.scene.views
    requires c != Actor(g.at.scene, step)
    ensures Even(h, c)
  {
    if c in g.at.scene.views && h.at.scene.views[c] == g.at.scene.views[c] {
      EvenOther(g, step, m, h, c);
    } else {
      HandedOut(g.at, step, h.at, c);
    }
  }

  lemma HandedOut(s: Instant, step: HubStep, t: Instant, c: Connection)
    requires Moves(s, step, t) && c != Actor(s.scene, step) && c in t.scene.views
    requires c !in s.scene.views || t.scene.views[c] != s.scene.views[c]
    ensures t.scene.views[c] == OPENED
  {
    hide BoardAfter, ComesOn, Posts, ActedSpec, ExecSpec;
  }

  /** Over every run: what has gone out on a connection, number by number, is what its queue has given up. */
  lemma {:induction false} SentIsTaken(errands: seq<Errand>, moments: seq<Moment>, made: seq<Queues.Message?>, i: nat)
    requires AccountedRun(errands, moments, made) && Tally(moments[0]) && i < |moments|
    ensures Tally(moments[i])
  {
    hide Accounted, Tally, Moved, StepAt, Stopped;
    if i == 0 {
    } else {
      SentIsTaken(errands, moments, made, i - 1);
      assert Accounted(moments[i - 1]) && Accounted(moments[i]);
      TallyNext(moments[i - 1], errands[i - 1], made[i - 1], moments[i]);
    }
  }
}
