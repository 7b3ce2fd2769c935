/**
 The hub and its members' queues together: a member gets a queue when it logs in, messages are put into
 it by servicing other connections, taken out by its own connection's sending task, and thrown away when
 it logs out. Over every run nothing is lost, doubled or put out of order in between.
 */
module Offices {
  import opened Bytes
  import opened Connections
  import opened Delivery
  import Routing
  import Queues

  const MEMBER_MSG_QUEUE_LENGTH: nat := 30

  /** Queue by queue: what is waiting, and what has ever been posted, taken out and thrown away. */
  datatype Bags = Bags(lists: Lists, posted: Lists, taken: Lists, lost: Lists)

  /** Everything ever posted was taken, in order, or thrown away after that, or is still waiting. */
  ghost predicate Balanced(b: Bags) {
    && |b.lists| == |b.posted| == |b.taken| == |b.lost|
    && forall k :: 0 <= k < |b.lists| ==> b.posted[k] == b.taken[k] + b.lost[k] + b.lists[k]
  }

  function Dims(n: nat): seq<nat> { seq(n, _ => MEMBER_MSG_QUEUE_LENGTH) }

  // ---------------------------------------------------------------- what happens to the queues

  predicate Appended(was: Lists, now: Lists) {
    |was| == |now| && forall i :: 0 <= i < |was| ==> was[i] <= now[i]
  }

  lemma {:induction false} SpreadAppends(was: Lists, dims: seq<nat>, ks: seq<nat>, m: Queues.Message, n: nat)
    requires |was| == |dims| && forall a :: 0 <= a < |ks| ==> ks[a] < |was|
    ensures Appended(was, Queues.Spread(was, dims, ks, m, n).0)
    decreases |ks|
  {
    if ks == [] || |was[ks[0]]| + 1 >= dims[ks[0]] {
    } else {
      SpreadAppends(was[ks[0] := was[ks[0]] + [m]], dims, ks[1..], m, n + 1);
    }
  }

  lemma DepositAppends(was: Lists, dims: seq<nat>, mail: Mail, box: Box, k: nat, m: Queues.Message)
    requires |was| == |dims| && k < |was| && Addressed(mail, box, |was|)
    ensures Appended(was, Deposited(was, dims, mail, box, k, m))
  {
    if mail.To? { SpreadAppends(was, dims, Boxes(mail.members, box), m, 0); }
  }

  /** What is new in the lists is added to what has been posted. */
  function Entered(posted: Lists, was: Lists, now: Lists): Lists
    requires |posted| == |was| && Appended(was, now)
  {
    seq(|posted|, i requires 0 <= i < |posted| => posted[i] + now[i][|was[i]|..])
  }

  ghost function Mailed(b: Bags, mail: Mail, box: Box, k: nat, m: Queues.Message): Bags
    requires Balanced(b) && k < |b.lists| && Addressed(mail, box, |b.lists|)
  {
    DepositAppends(b.lists, Dims(|b.lists|), mail, box, k, m);
    var now := Deposited(b.lists, Dims(|b.lists|), mail, box, k, m);
    b.(lists := now, posted := Entered(b.posted, b.lists, now))
  }

  ghost function TakenFrom(b: Bags, k: nat): Bags
    requires Balanced(b) && k < |b.lists| && b.lists[k] != []
  {
    b.(lists := b.lists[k := b.lists[k][1..]], taken := b.taken[k := b.taken[k] + [b.lists[k][0]]])
  }

  ghost function ThrownAway(b: Bags, k: nat): Bags
    requires Balanced(b) && k < |b.lists|
  {
    b.(lists := b.lists[k := []], lost := b.lost[k := b.lost[k] + b.lists[k]])
  }

  ghost function Widened(b: Bags): Bags {
    Bags(b.lists + [[]], b.posted + [[]], b.taken + [[]], b.lost + [[]])
  }

  lemma MailedBalances(b: Bags, mail: Mail, box: Box, k: nat, m: Queues.Message)
    requires Balanced(b) && k < |b.lists| && Addressed(mail, box, |b.lists|)
    ensures Balanced(Mailed(b, mail, box, k, m)) && Mailed(b, mail, box, k, m).lost == b.lost
  {
    hide Deposited, Addressed;
    DepositAppends(b.lists, Dims(|b.lists|), mail, box, k, m);
    var now := Deposited(b.lists, Dims(|b.lists|), mail, box, k, m);
    forall i | 0 <= i < |b.lists|
      ensures Entered(b.posted, b.lists, now)[i] == b.taken[i] + b.lost[i] + now[i]
    {
      assert now[i] == b.lists[i] + now[i][|b.lists[i]|..];
    }
  }

  /** Only what was not thrown away before can be taken. */
  lemma TakenBalances(b: Bags, k: nat)
    requires Balanced(b) && k < |b.lists| && b.lists[k] != [] && b.lost[k] == []
    ensures Balanced(TakenFrom(b, k))
  {
    var c := TakenFrom(b, k);
    assert b.lists[k] == [b.lists[k][0]] + b.lists[k][1..];
    assert c.posted[k] == c.taken[k] + c.lost[k] + c.lists[k];
  }

  lemma ThrownBalances(b: Bags, k: nat)
    requires Balanced(b) && k < |b.lists|
    ensures Balanced(ThrownAway(b, k))
  {
    var c := ThrownAway(b, k);
    assert c.posted[k] == c.taken[k] + c.lost[k] + c.lists[k];
  }

  /** One thing that happens to the queues. */
  datatype Deed = Mails(mail: Mail, k: nat, m: Queues.Message?) | Takes(k: nat) | Closes(k: nat) | Widens

  /** A message nobody has been sent before. */
  ghost predicate IsNew(b: Bags, m: Queues.Message) { forall k :: 0 <= k < |b.posted| ==> m !in b.posted[k] }

  ghost predicate Doable(b: Bags, d: Deed, box: Box) {
    && Balanced(b)
    && match d
       case Mails(mail, k, m) => m != null && IsNew(b, m) && k < |b.lists| && Addressed(mail, box, |b.lists|)
       case Takes(k) => k < |b.lists| && b.lists[k] != [] && b.lost[k] == []
       case Closes(k) => k < |b.lists|
       case Widens => true
  }

  ghost function Did(b: Bags, d: Deed, box: Box): Bags
    requires Doable(b, d, box)
  {
    match d
    case Mails(mail, k, m) => Mailed(b, mail, box, k, m)
    case Takes(k) => TakenFrom(b, k)
    case Closes(k) => ThrownAway(b, k)
    case Widens => Widened(b)
  }

  ghost predicate Makes(b: Bags, d: Deed, box: Box, c: Bags) { Doable(b, d, box) && c == Did(b, d, box) }

  /** The queues `b` become the queues `c` by these deeds, one after the other. */
  ghost predicate Does(b: Bags, deeds: seq<Deed>, box: Box, c: Bags)
    decreases |deeds|
  {
    if deeds == [] then b == c else Doable(b, deeds[0], box) && Does(Did(b, deeds[0], box), deeds[1..], box, c)
  }

  lemma {:induction false} DoesMore(b: Bags, deeds: seq<Deed>, box: Box, c: Bags, d: Deed, c': Bags)
    requires Does(b, deeds, box, c) && Makes(c, d, box, c')
    ensures Does(b, deeds + [d], box, c')
    decreases |deeds|
  {
    hide Did, Doable;
    if deeds == [] {
      assert ([] + [d])[1..] == [];
      DoesNothing(c', box);
    } else {
      DoesMore(Did(b, deeds[0], box), deeds[1..], box, c, d, c');
      assert (deeds + [d])[1..] == deeds[1..] + [d];
    }
  }

  lemma DoesNothing(b: Bags, box: Box)
    ensures Does(b, [], box, b)
  {}

  // ---------------------------------------------------------------- the hub and the queues

  /** What a connection's two tasks and its client do; whether there is a message to write is for the queue to say. */
  datatype Errand =
    | Join(fate: Fate)
    | Opening(k: nat, fate: Fate)
    | Read(k: nat, arrived: bool, fate: Fate)
    | Write(k: nat, delivered: bool, fate: Fate)
    | Shut(k: nat, writing: bool, fate: Fate)

  function StepOf(e: Errand, queued: bool): (s: HubStep)
    ensures s.fate == e.fate
  {
    match e
    case Join(fate) => Accept(fate)
    case Opening(k, fate) => Opens(k, fate)
    case Read(k, arrived, fate) => Reads(k, arrived, fate)
    case Write(k, delivered, fate) => Sends(k, queued, delivered, fate)
    case Shut(k, writing, fate) => Happens(k, if writing then 'w' else 'r', fate)
  }

  /** Does a step send a waiting message for good? */
  predicate Dispatches(a: Scene, s: HubStep) {
    var c := Actor(a, s);
    c != null && s.Sends? && s.queued && s.delivered && a.stage[c] == 3 && a.views[c].cs == IDLE
  }

  /** A member's queue. */
  function Key(m: Routing.Member?, box: Box): nat { if m in box then box[m] else 0 }

  /** A step's mail, or the message it has sent. */
  function ServeDeeds(mail: Mail, m: Queues.Message?, sends: bool, was: Routing.Member?, box: Box): seq<Deed> {
    if mail != NO_MAIL then [Mails(mail, Key(was, box), m)] else if sends then [Takes(Key(was, box))] else []
  }

  /** The queue of a member that goes, and one for a member that comes. */
  function ChangeDeeds(was: Routing.Member?, now: Routing.Member?, box: Box): seq<Deed> {
    (if was != null && now != was then [Closes(Key(was, box))] else [])
    + (if now != null && now != was then [Widens] else [])
  }

  /** All that a step means for the queues, when its actor's member was `was` and is `now`. */
  function Deeds(mail: Mail, m: Queues.Message?, sends: bool, was: Routing.Member?, now: Routing.Member?, box: Box)
    : seq<Deed>
  {
    ServeDeeds(mail, m, sends, was, box) + ChangeDeeds(was, now, box)
  }

  lemma {:induction false} DoesAll(b: Bags, first: seq<Deed>, box: Box, c: Bags, last: seq<Deed>, d: Bags)
    requires Does(b, first, box, c) && Does(c, last, box, d)
    ensures Does(b, first + last, box, d)
    decreases |first|
  {
    hide Did, Doable;
    if first == [] {
      assert [] + last == last;
    } else {
      DoesAll(Did(b, first[0], box), first[1..], box, c, last, d);
      assert (first + last)[1..] == first[1..] + last && (first + last)[0] == first[0];
    }
  }

  /** The hub and the queues as values, and which queue is whose. */
  datatype Moment = Moment(at: Instant, bags: Bags, box: Box)

  /** A member that comes gets the next queue. */
  function Handed(was: Routing.Member?, now: Routing.Member?, box: Box, k: nat): Box {
    if now != null && now != was then box[now := k] else box
  }

  /** What a step makes of the queues, `m` being the message made for its mail. */
  ghost predicate Posted(g: Moment, step: HubStep, m: Queues.Message?, h: Moment) {
    var c := Actor(g.at.scene, step);
    if c == null || c !in g.at.members || c !in h.at.members then h.bags == g.bags && h.box == g.box else
      var was, now := g.at.members[c], h.at.members[c];
      && Does(g.bags, Deeds(MailAt(g.at, step), m, Dispatches(g.at.scene, step), was, now, g.box), g.box, h.bags)
      && (now == null || now == was || now !in g.box)
      && h.box == Handed(was, now, g.box, |g.bags.lists|)
  }

  /** The moment behind a step. */
  ghost predicate Moved(g: Moment, step: HubStep, m: Queues.Message?, h: Moment) {
    Moves(g.at, step, h.at) && Posted(g, step, m, h)
  }

  /** Is there a message for the errand to write? */
  predicate HasLetter(g: Moment, e: Errand) {
    && e.Write? && e.k < |g.at.scene.conns|
    && var c := g.at.scene.conns[e.k];
       && c in g.at.members && g.at.members[c] in g.box
       && var k := g.box[g.at.members[c]];
          k < |g.bags.lists| && g.bags.lists[k] != []
  }

  /** The hub's step for an errand. */
  function StepAt(g: Moment, e: Errand): (s: HubStep)
    ensures s.fate == e.fate
  {
    StepOf(e, HasLetter(g, e))
  }

  // ---------------------------------------------------------------- what only grows

  /** Every queue of `b` is one of `c`, and each record of it has at most been added to. */
  ghost predicate Grows(b: Bags, c: Bags) {
    && Balanced(b) && Balanced(c) && |b.lists| <= |c.lists|
    && forall k :: 0 <= k < |b.lists| ==>
         b.posted[k] <= c.posted[k] && b.taken[k] <= c.taken[k] && b.lost[k] <= c.lost[k]
  }

  lemma DidGrows(b: Bags, d: Deed, box: Box)
    requires Doable(b, d, box)
    ensures Grows(b, Did(b, d, box))
  {
    match d
    case Mails(mail, k, m) =>
      hide Deposited, Addressed;
      MailedBalances(b, mail, box, k, m);
    case Takes(k) => TakenBalances(b, k);
    case Closes(k) => ThrownBalances(b, k);
    case Widens =>
  }

  lemma {:induction false} DoesGrows(b: Bags, deeds: seq<Deed>, box: Box, c: Bags)
    requires Does(b, deeds, box, c) && Balanced(b)
    ensures Grows(b, c)
    decreases |deeds|
  {
    hide Did, Doable;
    if deeds == [] {
      SameGrows(b);
    } else {
      DidGrows(b, deeds[0], box);
      DoesGrows(Did(b, deeds[0], box), deeds[1..], box, c);
      GrowsOn(b, Did(b, deeds[0], box), c);
    }
  }

  lemma SameGrows(b: Bags)
    requires Balanced(b)
    ensures Grows(b, b)
  {}

  lemma GrowsOn(b: Bags, c: Bags, d: Bags)
    requires Grows(b, c) && Grows(c, d)
    ensures Grows(b, d)
  {
    hide Balanced;
  }

  /** A run: each errand leads from one moment to the next, and none stops the process. */
  ghost predicate IsRun(errands: seq<Errand>, moments: seq<Moment>, made: seq<Queues.Message?>) {
    && |moments| == |made| + 1 && |made| <= |errands|
    && forall i :: 0 <= i < |made| ==>
         var g := moments[i];
         var step := StepAt(g, errands[i]);
         !Stopped(g.at, step) && Moved(g, step, made[i], moments[i + 1])
  }

  /** Every member has a queue, and none has another's. */
  ghost predicate Assigned(box: Box, n: nat) {
    && (forall x :: x in box ==> box[x] < n)
    && (forall x, y :: x in box && y in box && box[x] == box[y] ==> x == y)
  }

  /** What was posted to a member that is connected has been taken, or is waiting for it. */
  ghost predicate Accounted(g: Moment) {
    && Balanced(g.bags) && Matched(g.at) && Assigned(g.box, |g.bags.lists|)
    && forall c :: c in g.at.members && g.at.members[c] != null ==>
         && g.at.members[c] in g.box
         && var k := g.box[g.at.members[c]];
            k < |g.bags.lists| && g.bags.posted[k] == g.bags.taken[k] + g.bags.lists[k]
  }

  /** A run, and the queues at every moment of it. */
  ghost predicate AccountedRun(errands: seq<Errand>, moments: seq<Moment>, made: seq<Queues.Message?>) {
    IsRun(errands, moments, made) && forall i :: 0 <= i < |moments| ==> Accounted(moments[i])
  }

  /** A run to the end, or to an errand that stops the process. */
  ghost predicate Ran(errands: seq<Errand>, moments: seq<Moment>, made: seq<Queues.Message?>, dead: bool) {
    && AccountedRun(errands, moments, made) && (dead <==> |made| < |errands|)
    && (dead ==>
         var g := moments[|made|];
         Stopped(g.at, StepAt(g, errands[|made|])))
  }

  lemma RunMore(errands: seq<Errand>, moments: seq<Moment>, made: seq<Queues.Message?>, m: Queues.Message?, h: Moment)
    requires AccountedRun(errands, moments, made) && |made| < |errands| && Accounted(h)
    requires var g := moments[|made|]; var step := StepAt(g, errands[|made|]);
      !Stopped(g.at, step) && Moved(g, step, m, h)
    ensures AccountedRun(errands, moments + [h], made + [m])
  {
    hide StepAt, Stopped, Moved, Accounted;
  }

  lemma RunEnds(errands: seq<Errand>, moments: seq<Moment>, made: seq<Queues.Message?>)
    requires AccountedRun(errands, moments, made)
    ensures |made| == |errands| ==> Ran(errands, moments, made, false)
    ensures |made| < |errands| ==>
      var g := moments[|made|];
      Stopped(g.at, StepAt(g, errands[|made|])) ==> Ran(errands, moments, made, true)
  {
    hide StepAt, Stopped, Moved, Accounted;
  }

  lemma MovedGrows(g: Moment, step: HubStep, m: Queues.Message?, h: Moment)
    requires Moved(g, step, m, h) && Balanced(g.bags)
    ensures Grows(g.bags, h.bags) && forall x :: x in g.box ==> x in h.box && h.box[x] == g.box[x]
  {
    hide Balanced, Grows, Does, Moves, Deeds, MailAt, Dispatches, Actor;
    var c := Actor(g.at.scene, step);
    if c == null || c !in g.at.members || c !in h.at.members {
      SameGrows(g.bags);
    } else {
      var was, now := g.at.members[c], h.at.members[c];
      DoesGrows(g.bags, Deeds(MailAt(g.at, step), m, Dispatches(g.at.scene, step), was, now, g.box), g.box, h.bags);
    }
  }

  /**
   Over every run a member keeps its queue, and from any moment to any later one nothing disappears from
   what has been posted to it, taken out of it or thrown away with it.
   */
  lemma {:induction false} RunGrows(errands: seq<Errand>, moments: seq<Moment>, made: seq<Queues.Message?>,
      i: nat, j: nat)
    requires IsRun(errands, moments, made) && i <= j < |moments| && Balanced(moments[0].bags)
    ensures Grows(moments[i].bags, moments[j].bags)
    ensures forall x :: x in moments[i].box ==> x in moments[j].box && moments[j].box[x] == moments[i].box[x]
    decreases j, i
  {
    hide Balanced, Grows, Moved, StepAt, Stopped;
    if j == 0 {
      SameGrows(moments[0].bags);
    } else {
      RunGrows(errands, moments, made, 0, j - 1);
      GrowsMeans(moments[0].bags, moments[j - 1].bags);
      var g := moments[j - 1];
      MovedGrows(g, StepAt(g, errands[j - 1]), made[j - 1], moments[j]);
      GrowsMeans(g.bags, moments[j].bags);
      if i < j {
        RunGrows(errands, moments, made, i, j - 1);
        GrowsOn(moments[i].bags, g.bags, moments[j].bags);
      } else {
        SameGrows(moments[j].bags);
      }
    }
  }

  lemma GrowsMeans(b: Bags, c: Bags)
    requires Grows(b, c)
    ensures Balanced(b) && Balanced(c)
  {}

  /** Whoever takes messages out of a queue gets what was posted, in order, without gaps and without doubles. */
  lemma TakesWhatWasPosted(errands: seq<Errand>, moments: seq<Moment>, made: seq<Queues.Message?>,
      i: nat, j: nat, k: nat)
    requires IsRun(errands, moments, made) && i <= j < |moments| && Balanced(moments[0].bags)
    requires k < |moments[i].bags.lists|
    ensures k < |moments[j].bags.lists| && Balanced(moments[i].bags) && Balanced(moments[j].bags)
    ensures moments[i].bags.taken[k] <= moments[j].bags.taken[k] <= moments[j].bags.posted[k]
    ensures moments[j].bags.lost[k] == [] ==>
      moments[j].bags.posted[k] == moments[j].bags.taken[k] + moments[j].bags.lists[k]
  {
    hide IsRun;
    RunGrows(errands, moments, made, i, j);
  }

  class Office {
    const hub: Hub
    const post: Queues.Post
    var box: Box
    ghost var posted: Lists
    ghost var taken: Lists
    ghost var lost: Lists

    ghost function State(): Bags
      reads this`posted, this`taken, this`lost, post`queues, post.queues
    {
      Bags(post.Lists(), posted, taken, lost)
    }

    /** Every member has a queue of its own. */
    ghost predicate Keyed()
      reads this`box, post`queues
    {
      && (forall m :: m in box ==> box[m] < |post.queues|)
      && (forall m, n :: m in box && n in box && box[m] == box[n] ==> m == n)
    }

    /** The queues' side of the office. */
    ghost predicate Kept()
      reads this, post, post.queues, set k | 0 <= k < |post.queues| :: post.queues[k].messages, post.msgs
    {
      && post.Valid() && Balanced(State()) && |lost| == |post.queues|
      && Keyed() && post.Dims() == Dims(|post.queues|)
    }

    /** The member has a queue, and nothing of it has been thrown away. */
    ghost predicate Intact(m: Routing.Member)
      reads this`box, this`lost
    {
      m in box && box[m] < |lost| && lost[box[m]] == []
    }

    /** The member has a message waiting. */
    ghost predicate Waits(m: Routing.Member)
      reads this`box, post`queues, post.queues
    {
      m in box && box[m] < |post.queues| && post.Lists()[box[m]] != []
    }

    /** So it is for every connected member. */
    ghost predicate Live()
      reads this`box, this`lost, hub`all, hub.all`member
    {
      forall c :: c in hub.all && c.member != null ==> Intact(c.member)
    }

    /** A hub that nobody has connected to yet. */
    constructor (hub: Hub)
      requires hub.all == {}
      ensures this.hub == hub && Kept() && Live() && State() == Bags([], [], [], []) && box == map[]
    {
      this.hub := hub;
      post := new Queues.Post();
      box, posted, taken, lost := map[], [], [], [];
    }

    /** A mail of the member whose queue is `k`. */
    method Put(mail: Mail, k: nat) returns (m: Queues.Message)
      requires Kept() && k < |post.queues| && Addressed(mail, box, |post.queues|)
      modifies this`posted, post`msgs, post.queues, set k | 0 <= k < |post.queues| :: post.queues[k].messages
      ensures Kept() && fresh(m) && Makes(old(State()), Mails(mail, k, m), box, State())
      ensures post.queues == old(post.queues) && forall x :: x in post.msgs ==> x in old(post.msgs) || fresh(x)
    {
      hide Queues.Post.Valid, Deposited, Balanced, Addressed;
      ghost var b := State();
      m := Deposit(post, box, mail, k);
      posted := Mailed(b, mail, box, k, m).posted;
      MailedBalances(b, mail, box, k, m);
    }

    /** Member_delete_msg after a message has been sent. */
    method Take(k: nat)
      requires Kept() && k < |post.queues| && State().lists[k] != [] && lost[k] == []
      modifies this`taken, post.queues[k], post.queues[k].messages, post.msgs
      ensures Kept() && Makes(old(State()), Takes(k), box, State())
    {
      hide Queues.Post.Valid, Balanced;
      ghost var b := State();
      assert post.Lists()[k] == post.queues[k].waiting;
      TakenBalances(b, k);
      var _ := post.Drop(k);
      taken := TakenFrom(b, k).taken;
    }

    /** Member_logout: the queue goes, with what is in it. */
    method Close(k: nat)
      requires Kept() && k < |post.queues|
      modifies this`lost, post.queues[k], post.queues[k].messages, post.msgs
      ensures Kept() && Makes(old(State()), Closes(k), box, State())
      ensures forall i :: 0 <= i < |lost| && i != k ==> lost[i] == old(lost)[i]
    {
      hide Queues.Post.Valid, Balanced;
      ghost var b := State();
      ThrownBalances(b, k);
      post.Drain(k);
      lost := ThrownAway(b, k).lost;
    }

    /** Member_login: a queue for a new member. */
    method OpenFor(m: Routing.Member)
      requires Kept() && m !in box
      modifies this`box, this`posted, this`taken, this`lost, post`queues
      ensures Kept() && box == old(box)[m := |old(post.queues)|] && Makes(old(State()), Widens, old(box), State())
      ensures |post.queues| == |old(post.queues)| + 1 && lost == old(lost) + [[]]
      ensures fresh(post.queues[|old(post.queues)|]) && fresh(post.queues[|old(post.queues)|].messages)
      ensures post.queues[..|old(post.queues)|] == old(post.queues)
    {
      hide Queues.Post.Valid;
      var k := post.Open(MEMBER_MSG_QUEUE_LENGTH);
      box := box[m := k];
      posted, taken, lost := posted + [[]], taken + [[]], lost + [[]];
    }

    /** The mail of a step, or the message it has sent. */
    method Serve(mail: Mail, sends: bool, was: Routing.Member?) returns (ghost m: Queues.Message?)
      requires Kept() && (was != null ==> Intact(was))
      requires mail != NO_MAIL ==> was != null && Addressed(mail, box, |post.queues|)
      requires sends ==> was != null && mail == NO_MAIL && Waits(was)
      modifies this`posted, this`taken, post`msgs
      modifies post.queues, set k | 0 <= k < |post.queues| :: post.queues[k].messages, post.msgs
      ensures Kept() && (mail != NO_MAIL ==> m != null) && post.queues == old(post.queues)
      ensures forall x :: x in post.msgs ==> x in old(post.msgs) || fresh(x)
      ensures Does(old(State()), ServeDeeds(mail, m, sends, was, box), box, State())
    {
      hide Queues.Post.Valid, Balanced, Addressed, Makes, Does;
      ghost var b := State();
      DoesNothing(b, box);
      m := null;
      if mail != NO_MAIL {
        m := Put(mail, box[was]);
        DoesMore(b, [], box, b, Mails(mail, box[was], m), State());
        assert ServeDeeds(mail, m, sends, was, box) == [] + [Mails(mail, box[was], m)];
      } else if sends {
        Take(box[was]);
        DoesMore(b, [], box, b, Takes(box[was]), State());
        assert ServeDeeds(mail, m, sends, was, box) == [] + [Takes(box[was])];
      }
    }

    /** The queue of a member that has gone, and one for a member that has come. */
    method Change(was: Routing.Member?, now: Routing.Member?)
      requires Kept() && (was != null ==> Intact(was)) && (now != null && now != was ==> now !in box)
      modifies this`box, this`posted, this`taken, this`lost, post`queues
      modifies post.queues, set k | 0 <= k < |post.queues| :: post.queues[k].messages, post.msgs
      ensures Kept() && Does(old(State()), ChangeDeeds(was, now, old(box)), old(box), State())
      ensures box == Handed(was, now, old(box), |old(post.queues)|)
      ensures now != null ==> Intact(now)
      ensures forall x :: x in old(box) && old(Intact(x)) && (x != was || x == now) ==> Intact(x)
      ensures forall q :: q in post.queues ==> q in old(post.queues) || (fresh(q) && fresh(q.messages))
    {
      hide Queues.Post.Valid, Balanced, Makes, Does;
      ghost var b, box0, deeds := State(), box, [];
      DoesNothing(b, box0);
      if was != null && now != was {
        Close(box[was]);
        DoesMore(b, deeds, box0, b, Closes(box0[was]), State());
        deeds := deeds + [Closes(box0[was])];
      }
      if now != null && now != was {
        ghost var c := State();
        OpenFor(now);
        DoesMore(b, deeds, box0, c, Widens, State());
        deeds := deeds + [Widens];
      }
      assert deeds == ChangeDeeds(was, now, box0);
    }

    /** Has the connection's member a message waiting? */
    method HasMail(c: Connection) returns (queued: bool)
      requires Kept() && Live() && c in hub.all
      ensures queued == (c.member != null && Waits(c.member))
    {
      hide Queues.Post.Valid, Balanced;
      if c.member == null { return false; }
      assert Intact(c.member);
      var k := box[c.member];
      assert post.Lists()[k] == post.queues[k].waiting;
      QueueMeans(k);
      queued := post.queues[k].i != post.queues[k].j;
    }

    lemma QueueMeans(k: nat)
      requires post.Valid() && k < |post.queues|
      ensures post.queues[k].i == post.queues[k].j <==> post.queues[k].waiting == []
    {}

    lemma LiveMeans(c: Connection, fate: Fate)
      requires hub.Members() && Kept() && Live() && c in hub.all
      ensures c.member != null ==> Intact(c.member) && c.member in box
      ensures c.member != null ==> forall d :: d in hub.all && d.member == c.member ==> d == c
      ensures Addressed(hub.MailFor(fate), box, |post.queues|)
    {
      hide Hub.MailFor, Addressed, Queues.Post.Valid, Balanced, Routing.Table.Valid, Hub.Attended;
      MailIsAddressed(hub, post, box, fate);
    }

    /** The other connections' members, none of which is `was`, have their queues. */
    ghost predicate OthersLive(c: Connection, was: Routing.Member?)
      reads this`box, this`lost, hub`all, hub.all`member
    {
      forall d :: d in hub.all && d != c && d.member != null ==>
        d.member in box && Intact(d.member) && d.member != was
    }

    /** A step has ended whose actor's member was `was`, with this mail, or a message sent. */
    ghost predicate Settles(c: Connection, was: Routing.Member?, mail: Mail, sends: bool)
      reads this, hub`all, hub.all`member, c`member
      reads post, post.queues, set k | 0 <= k < |post.queues| :: post.queues[k].messages, post.msgs
    {
      && Kept() && (was != null ==> Intact(was)) && OthersLive(c, was)
      && (mail != NO_MAIL ==> was != null && Addressed(mail, box, |post.queues|))
      && (sends ==> was != null && mail == NO_MAIL && Waits(was))
      && (c.member == null || c.member == was || c.member !in box)
    }

    lemma SettlesMeans(c: Connection, was: Routing.Member?, mail: Mail, sends: bool)
      requires Settles(c, was, mail, sends)
      ensures c.member == null || c.member == was || c.member !in box
    {
      hide Kept;
    }

    /** What that means for the queues. */
    method Settle(c: Connection, was: Routing.Member?, mail: Mail, sends: bool) returns (ghost m: Queues.Message?)
      requires Settles(c, was, mail, sends)
      modifies this, post
      modifies post.queues, set k | 0 <= k < |post.queues| :: post.queues[k].messages, post.msgs
      ensures Kept() && Live() && box == Handed(was, c.member, old(box), |old(State()).lists|)
      ensures forall x :: x in post.msgs ==> x in old(post.msgs) || fresh(x)
      ensures forall q :: q in post.queues ==> q in old(post.queues) || (fresh(q) && fresh(q.messages))
      ensures Does(old(State()), Deeds(mail, m, sends, was, c.member, old(box)), old(box), State())
    {
      hide Addressed, Does, Kept, Intact, Waits, ServeDeeds, ChangeDeeds;
      ghost var b, box0 := State(), box;
      m := Serve(mail, sends, was);
      ghost var b' := State();
      Change(was, c.member);
      DoesAll(b, ServeDeeds(mail, m, sends, was, box0), box0, b', ChangeDeeds(was, c.member, box0), State());
      forall d | d in hub.all && d.member != null
        ensures Intact(d.member)
      {
        if d != c { assert d.member in box0 && d.member != was; }
      }
    }

    /** All that a step of the office can change. */
    ghost function Now(conns: seq<Connection>, stage: map<Connection, nat>): Moment
      reads this, hub`all, hub`closed, hub.all, hub.table`paths, hub.table.paths.Values, post`queues, post.queues
    {
      Moment(hub.Now(conns, stage), State(), box)
    }

    lemma NowMeans(conns: seq<Connection>, stage: map<Connection, nat>)
      ensures Now(conns, stage) == Moment(hub.Now(conns, stage), State(), box)
      ensures hub.Now(conns, stage).scene == Scene(hub.Views(), conns, stage)
      ensures forall c :: c in hub.all ==>
        c in hub.Now(conns, stage).members && hub.Now(conns, stage).members[c] == c.member
    {}

    /** The hub's half of a move. */
    ghost predicate HubMoved(c: Connection, step: HubStep, t: Instant, g: Moment)
      reads c`member
    {
      && c in t.members && c in g.at.members && Actor(g.at.scene, step) == c
      && Moves(g.at, step, t) && t.members[c] == c.member
    }

    lemma HubHalf(c: Connection, step: HubStep, t: Instant, g: Moment)
      requires c in t.members && c in g.at.members && Actor(g.at.scene, step) == c
      requires Moves(g.at, step, t) && t.members[c] == c.member
      ensures HubMoved(c, step, t, g)
    {
      hide Moves, Actor;
    }

    lemma MovedHalves(c: Connection, step: HubStep, m: Queues.Message?, t: Instant, g: Moment)
      requires HubMoved(c, step, t, g)
      requires var was, mail, sends := g.at.members[c], MailAt(g.at, step), Dispatches(g.at.scene, step);
        && Does(g.bags, Deeds(mail, m, sends, was, c.member, g.box), g.box, State())
        && (c.member == null || c.member == was || c.member !in g.box)
        && box == Handed(was, c.member, g.box, |g.bags.lists|)
      ensures Moved(g, step, m, Moment(t, State(), box))
    {
      hide Moves, Does, Deeds, MailAt, Dispatches, Actor, Handed;
    }

    /** What the hub does in a step of an accepted connection. */
    method StepHub(c: Connection, step: HubStep, conns: seq<Connection>, stage: map<Connection, nat>, ghost g: Moment)
      returns (conns': seq<Connection>, stage': map<Connection, nat>, dead: bool, mail: Mail)
      requires hub.Valid() && Routable(step.fate)
      requires g.at == hub.Now(conns, stage) && Opened(g.at.scene) && c in hub.all && Actor(g.at.scene, step) == c
      modifies hub, hub.all, hub.table, hub.table.paths.Values, hub.table.known
      ensures dead <==> Stopped(g.at, step)
      ensures !dead ==> hub.Valid() && Opened(Scene(hub.Views(), conns', stage'))
      ensures !dead ==> HubMoved(c, step, hub.Now(conns', stage'), g)
      ensures mail == MailAt(g.at, step)
      ensures c.member == null || c.member == old(c.member) || fresh(c.member)
      ensures forall d :: d in hub.all && d != c ==> d.member == if d in old(hub.all) then old(d.member) else null
      ensures forall d :: d in hub.all ==> d in old(hub.all) || fresh(d)
      ensures forall m :: m in hub.table.known ==> m in old(hub.table.known) || fresh(m)
      ensures forall x :: x in hub.table.paths.Values ==> x in old(hub.table.paths.Values) || fresh(x)
    {
      hide Hub.Valid, Routable, Moves, Opened, Hub.Views, Hub.Now, Stopped, MailAt, Actor, HubMoved;
      NowMeans(conns, stage);
      conns', stage', dead, mail := hub.Go(step, conns, stage, g.at);
      if !dead {
        NowMeans(conns', stage');
        HubHalf(c, step, hub.Now(conns', stage'), g);
      }
    }

    /** The same, and what it leaves for the queues. */
    method Advance(c: Connection, step: HubStep, conns: seq<Connection>, stage: map<Connection, nat>, ghost g: Moment)
      returns (conns': seq<Connection>, stage': map<Connection, nat>, dead: bool, mail: Mail, sends: bool)
      requires hub.Valid() && Kept() && Live() && Routable(step.fate)
      requires g == Now(conns, stage) && Opened(g.at.scene) && c in hub.all && Actor(g.at.scene, step) == c
      requires step.Happens? ==> step.ev != 's'
      requires step.Sends? && step.queued ==> c.member != null && Waits(c.member)
      modifies hub, hub.all, hub.table, hub.table.paths.Values, hub.table.known
      ensures dead <==> Stopped(g.at, step)
      ensures !dead ==> hub.Valid() && Opened(Scene(hub.Views(), conns', stage'))
      ensures !dead ==> HubMoved(c, step, hub.Now(conns', stage'), g)
      ensures sends == Dispatches(g.at.scene, step) && mail == MailAt(g.at, step)
      ensures Settles(c, old(c.member), mail, sends)
      ensures post.queues == old(post.queues) && post.msgs == old(post.msgs)
      ensures forall d :: d in hub.all ==> d in old(hub.all) || fresh(d)
      ensures forall m :: m in hub.table.known ==> m in old(hub.table.known) || fresh(m)
      ensures forall x :: x in hub.table.paths.Values ==> x in old(hub.table.paths.Values) || fresh(x)
    {
      hide Hub.Valid, Kept, Routable, Opened, Hub.Views, Hub.Now, Stopped, HubMoved;
      hide Addressed, MailAt, Dispatches, Actor, Waits, Intact, State;
      NowMeans(conns, stage);
      ActFacts(c, step, conns, stage);
      ghost var was := c.member;
      sends := step.Sends? && step.queued && step.delivered && stage[c] == 3 && c.cs == IDLE;
      conns', stage', dead, mail := StepHub(c, step, conns, stage, g);
      assert OthersLive(c, was);
    }

    /** The queues' half of a move, after the hub's. */
    method Finish(c: Connection, was: Routing.Member?, mail: Mail, sends: bool, ghost conns: seq<Connection>,
        ghost stage: map<Connection, nat>, ghost step: HubStep, ghost g: Moment)
      returns (ghost m: Queues.Message?)
      requires hub.Valid() && Opened(Scene(hub.Views(), conns, stage)) && HubMoved(c, step, hub.Now(conns, stage), g)
      requires was == g.at.members[c] && Settles(c, was, mail, sends) && State() == g.bags && box == g.box
      requires sends == Dispatches(g.at.scene, step) && mail == MailAt(g.at, step)
      modifies this, post, post.queues, set k | 0 <= k < |post.queues| :: post.queues[k].messages, post.msgs
      ensures hub.Valid() && Kept() && Live() && Opened(Scene(hub.Views(), conns, stage))
      ensures Moved(g, step, m, Now(conns, stage))
      ensures hub.all == old(hub.all) && hub.table.known == old(hub.table.known)
      ensures hub.table.paths == old(hub.table.paths)
      ensures forall x :: x in post.msgs ==> x in old(post.msgs) || fresh(x)
      ensures forall q :: q in post.queues ==> q in old(post.queues) || (fresh(q) && fresh(q.messages))
    {
      hide Hub.Valid, Hub.Members, Hub.Pooled, Kept, Moves, Opened, Hub.Views, Hub.Now;
      hide Addressed, Does, MailAt, Dispatches, Actor, Deeds, Settles, Live, State, Now, Moved, Handed;
      ghost var t := hub.Now(conns, stage);
      SettlesMeans(c, was, mail, sends);
      m := Settle(c, was, mail, sends);
      NowMeans(conns, stage);
      MovedHalves(c, step, m, t, g);
    }

    /** An errand of an accepted connection: what the hub does, and then what its outcome means for the queues. */
    method Act(c: Connection, step: HubStep, conns: seq<Connection>, stage: map<Connection, nat>, ghost g: Moment)
      returns (conns': seq<Connection>, stage': map<Connection, nat>, dead: bool, ghost m: Queues.Message?)
      requires hub.Valid() && Kept() && Live() && Routable(step.fate)
      requires g == Now(conns, stage) && Opened(g.at.scene) && c in hub.all && Actor(g.at.scene, step) == c
      requires step.Happens? ==> step.ev != 's'
      requires step.Sends? && step.queued ==> c.member != null && Waits(c.member)
      modifies this, hub, hub.all, hub.table, hub.table.paths.Values, hub.table.known
      modifies post, post.queues, set k | 0 <= k < |post.queues| :: post.queues[k].messages, post.msgs
      ensures dead <==> Stopped(g.at, step)
      ensures !dead ==> hub.Valid() && Kept() && Live() && Opened(Scene(hub.Views(), conns', stage'))
      ensures !dead ==> Moved(g, step, m, Now(conns', stage'))
      ensures forall d :: d in hub.all ==> d in old(hub.all) || fresh(d)
      ensures forall m :: m in hub.table.known ==> m in old(hub.table.known) || fresh(m)
      ensures forall x :: x in hub.table.paths.Values ==> x in old(hub.table.paths.Values) || fresh(x)
      ensures forall x :: x in post.msgs ==> x in old(post.msgs) || fresh(x)
      ensures forall q :: q in post.queues ==> q in old(post.queues) || (fresh(q) && fresh(q.messages))
    {
      hide Hub.Valid, Hub.Members, Hub.Pooled, Kept, Routable, Moves, Opened, Hub.Views, Hub.Now, Stopped;
      hide Addressed, Does, MailAt, Dispatches, Actor, Deeds, Settles, Live, State, Now, Moved, HubMoved, Handed;
      NowMeans(conns, stage);
      var was := c.member;
      var mail, sends;
      conns', stage', dead, mail, sends := Advance(c, step, conns, stage, g);
      m := null;
      if dead { return; }
      m := Finish(c, was, mail, sends, conns', stage', step, g);
    }

    lemma ActFacts(c: Connection, step: HubStep, conns: seq<Connection>, stage: map<Connection, nat>)
      requires hub.Valid() && Kept() && Live() && c in hub.all
      requires Actor(hub.Now(conns, stage).scene, step) == c && (step.Happens? ==> step.ev != 's')
      ensures c in stage && (c.member != null ==> Intact(c.member))
      ensures OthersLive(c, c.member)
      ensures MailAt(hub.Now(conns, stage), step) != NO_MAIL ==> c.member != null && !step.Sends?
      ensures Addressed(MailAt(hub.Now(conns, stage), step), box, |post.queues|)
      ensures Dispatches(hub.Now(conns, stage).scene, step) ==
        (step.Sends? && step.queued && step.delivered && stage[c] == 3 && c.cs == IDLE)
    {
      hide Kept, Hub.MailFor, Addressed, Hub.Members, MailOn;
      LiveMeans(c, step.fate);
      hub.BoardSays(step.fate);
      hub.IdleHasMember(c);
      NothingAddressed();
    }

    lemma NothingAddressed()
      ensures Addressed(NO_MAIL, box, |post.queues|)
    {}

    /** A client that connects, or an errand of nobody: the queues stay as they are. */
    method Pass(step: HubStep, conns: seq<Connection>, stage: map<Connection, nat>, ghost g: Moment)
      returns (conns': seq<Connection>, stage': map<Connection, nat>)
      requires hub.Valid() && Kept() && Live() && Routable(step.fate)
      requires g == Now(conns, stage) && Opened(g.at.scene) && Actor(g.at.scene, step) == null
      modifies hub, hub.all, hub.table, hub.table.paths.Values, hub.table.known
      ensures !Stopped(g.at, step)
      ensures hub.Valid() && Kept() && Live() && Opened(Scene(hub.Views(), conns', stage'))
      ensures Moved(g, step, null, Now(conns', stage'))
      ensures forall d :: d in hub.all ==> d in old(hub.all) || fresh(d)
      ensures forall m :: m in hub.table.known ==> m in old(hub.table.known) || fresh(m)
      ensures forall x :: x in hub.table.paths.Values ==> x in old(hub.table.paths.Values) || fresh(x)
    {
      hide Hub.Valid, Hub.Members, Hub.Pooled, Kept, Routable, Moves, Opened, Hub.Views, Hub.Now, Actor, ComesOn;
      NowMeans(conns, stage);
      var dead, mail;
      conns', stage', dead, mail := hub.Go(step, conns, stage, g.at);
      NowMeans(conns', stage');
    }

    /** One errand. */
    method Move(e: Errand, conns: seq<Connection>, stage: map<Connection, nat>, ghost g: Moment)
      returns (conns': seq<Connection>, stage': map<Connection, nat>, dead: bool, ghost m: Queues.Message?)
      requires hub.Valid() && Kept() && Live() && Routable(e.fate)
      requires g == Now(conns, stage) && Opened(g.at.scene)
      modifies this, hub, hub.all, hub.table, hub.table.paths.Values, hub.table.known
      modifies post, post.queues, set k | 0 <= k < |post.queues| :: post.queues[k].messages, post.msgs
      ensures dead <==> Stopped(g.at, StepAt(g, e))
      ensures !dead ==> hub.Valid() && Kept() && Live() && Opened(Scene(hub.Views(), conns', stage'))
      ensures !dead ==> Moved(g, StepAt(g, e), m, Now(conns', stage'))
      ensures forall d :: d in hub.all ==> d in old(hub.all) || fresh(d)
      ensures forall m :: m in hub.table.known ==> m in old(hub.table.known) || fresh(m)
      ensures forall x :: x in hub.table.paths.Values ==> x in old(hub.table.paths.Values) || fresh(x)
      ensures forall x :: x in post.msgs ==> x in old(post.msgs) || fresh(x)
      ensures forall q :: q in post.queues ==> q in old(post.queues) || (fresh(q) && fresh(q.messages))
    {
      hide Hub.Valid, Hub.Members, Hub.Pooled, Kept, Routable, Moves, Opened, Hub.Views, Hub.Now, Stopped;
      hide Live, Now, Moved, HasLetter, Waits, Actor;
      ErrandMeans(e, conns, stage);
      if e.Join? || e.k >= |conns| {
        dead, m := false, null;
        conns', stage' := Pass(StepOf(e, false), conns, stage, g);
      } else {
        var c := conns[e.k];
        var queued := false;
        if e.Write? { queued := HasMail(c); }
        conns', stage', dead, m := Act(c, StepOf(e, queued), conns, stage, g);
      }
    }

    lemma ErrandMeans(e: Errand, conns: seq<Connection>, stage: map<Connection, nat>)
      requires Kept() && Opened(Now(conns, stage).at.scene)
      ensures e.Join? || e.k >= |conns| ==>
        !HasLetter(Now(conns, stage), e) && Actor(Now(conns, stage).at.scene, StepOf(e, false)) == null
      ensures !e.Join? && e.k < |conns| ==>
        && conns[e.k] in hub.all
        && (forall queued :: Actor(Now(conns, stage).at.scene, StepOf(e, queued)) == conns[e.k])
        && (HasLetter(Now(conns, stage), e) <==> e.Write? && conns[e.k].member != null && Waits(conns[e.k].member))
    {
      hide Queues.Post.Valid, Balanced;
    }

    /**
     Any errands in any order, until they are done or one stops the process. At every moment the queues
     hold what has been posted and neither taken nor thrown away.
     */
    method Run(errands: seq<Errand>)
      returns (n: nat, dead: bool, ghost moments: seq<Moment>, ghost made: seq<Queues.Message?>)
      requires hub.Valid() && Kept() && Live() && forall i :: 0 <= i < |errands| ==> Routable(errands[i].fate)
      modifies this, hub, hub.all, hub.table, hub.table.paths.Values, hub.table.known
      modifies post, post.queues, set k | 0 <= k < |post.queues| :: post.queues[k].messages, post.msgs
      ensures n == |made| && Ran(errands, moments, made, dead)
      ensures |moments| == n + 1 && moments[0] == old(Now([], map[]))
      ensures !dead ==> hub.Valid() && Kept() && Live() && moments[n].bags == State() && moments[n].box == box
    {
      hide Hub.Valid, Hub.Members, Hub.Pooled, Routable, Opened, Hub.Views, Hub.Now, Stopped;
      hide Live, Now, Moved, StepAt, IsRun, Kept, Accounted, AccountedRun, Ran, State;
      var conns: seq<Connection> := [];
      var stage: map<Connection, nat> := map[];
      n, dead, moments, made := 0, false, [Now(conns, stage)], [];
      NowMeans(conns, stage);
      FirstMoment(errands);
      ghost var stores := set k | 0 <= k < |post.queues| :: post.queues[k].messages;
      while n < |errands|
        invariant n == |made| <= |errands| && !dead && AccountedRun(errands, moments, made)
        invariant hub.Valid() && Kept() && Live()
        invariant |moments| == n + 1 && moments[n] == Now(conns, stage) && Opened(Scene(hub.Views(), conns, stage))
        invariant moments[0] == old(Now([], map[]))
        invariant forall d :: d in hub.all ==> d in old(hub.all) || fresh(d)
        invariant forall m :: m in hub.table.known ==> m in old(hub.table.known) || fresh(m)
        invariant forall x :: x in hub.table.paths.Values ==> x in old(hub.table.paths.Values) || fresh(x)
        invariant forall x :: x in post.msgs ==> x in old(post.msgs) || fresh(x)
        invariant forall q :: q in post.queues ==> q in old(post.queues) || fresh(q)
        invariant forall q :: q in post.queues ==> q.messages in stores || fresh(q.messages)
      {
        assert Routable(errands[n].fate);
        assert forall k :: 0 <= k < |post.queues| ==> post.queues[k] in post.queues;
        NowMeans(conns, stage);
        ghost var m;
        conns, stage, dead, m := Move(errands[n], conns, stage, moments[n]);
        if dead {
          RunEnds(errands, moments, made);
          return;
        }
        NowAccounted(conns, stage);
        RunMore(errands, moments, made, m, Now(conns, stage));
        moments, made := moments + [Now(conns, stage)], made + [m];
        n := n + 1;
      }
      NowMeans(conns, stage);
      RunEnds(errands, moments, made);
    }

    lemma NowAccounted(conns: seq<Connection>, stage: map<Connection, nat>)
      requires hub.Valid() && Kept() && Live() && Opened(Scene(hub.Views(), conns, stage))
      ensures Accounted(Now(conns, stage))
    {
      hide Queues.Post.Valid, Hub.Views, Hub.Valid, Matched, Opened;
      hub.NowMatches(conns, stage);
      var g := Now(conns, stage);
      forall c | c in g.at.members && g.at.members[c] != null
        ensures Intact(g.at.members[c])
      {
        assert c in hub.all && g.at.members[c] == c.member;
      }
    }

    lemma FirstMoment(errands: seq<Errand>)
      requires hub.Valid() && Kept() && Live()
      ensures Opened(Scene(hub.Views(), [], map[])) && AccountedRun(errands, [Now([], map[])], [])
    {
      hide Accounted, Kept, Live, Hub.Valid;
      OpenedFirst(Scene(hub.Views(), [], map[]));
      NowAccounted([], map[]);
    }
  }
}
