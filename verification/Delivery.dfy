/**
 A message from the hub's routing table into the members' queues: Hub_service_message with
 Route_deliver and send_response behind it.
 */
module Delivery {
  import opened Bytes
  import opened Connections
  import Heaps
  import Routing
  import Queues

  type Box = map<Routing.Member, nat>

  type Lists = seq<seq<Queues.Message>>

  function Boxes(ms: seq<Routing.Member>, box: Box): seq<nat>
    requires forall m :: m in ms ==> m in box
  {
    seq(|ms|, i requires 0 <= i < |ms| => box[ms[i]])
  }

  /** Every addressee has a queue. */
  ghost predicate Addressed(mail: Mail, box: Box, queues: nat) {
    mail.To? ==> forall m :: m in mail.members ==> m in box && box[m] < queues
  }

  /**
   What a mail makes of the queues. A message for others goes to the queue of each in turn, up to the
   first that is full; an answer goes into the sender's queue `k` unless that is full.
   */
  ghost function Deposited(was: Lists, dims: seq<nat>, mail: Mail, box: Box, k: nat, m: Queues.Message): (now: Lists)
    requires |was| == |dims| && k < |was| && Addressed(mail, box, |was|)
  {
    match mail
    case To(ms) => Queues.Spread(was, dims, Boxes(ms, box), m, 0).0
    case Reply => was[k := was[k] + if |was[k]| + 1 >= dims[k] then [] else [m]]
  }

  /** The queues `now` are what the mail of `sender` makes of the queues `was`. */
  ghost predicate Deposits(was: Lists, now: Lists, dims: seq<nat>, mail: Mail, box: Box, sender: Routing.Member?,
                           m: Queues.Message) {
    && |was| == |dims| && sender in box && box[sender] < |was| && Addressed(mail, box, |was|)
    && now == Deposited(was, dims, mail, box, box[sender], m)
  }

  /** Route_deliver, or send_response: the message is a new one either way. */
  method Deposit(post: Queues.Post, box: Box, mail: Mail, k: nat) returns (m: Queues.Message)
    requires post.Valid() && k < |post.queues| && Addressed(mail, box, |post.queues|)
    modifies post`msgs, post.queues, set k | 0 <= k < |post.queues| :: post.queues[k].messages
    ensures post.Valid() && fresh(m) && post.msgs == old(post.msgs) + {m}
    ensures post.Lists() == Deposited(old(post.Lists()), post.Dims(), mail, box, k, m)
  {
    hide Queues.Post.Valid, Queues.Spread;
    m := post.NewMessage();
    assert post.Lists() == old(post.Lists());
    match mail {
      case To(ms) => var _ := post.Deliver(Boxes(ms, box), m);
      case Reply =>
        assert post.Lists()[k] == post.queues[k].waiting && post.Dims()[k] == post.queues[k].dim;
        var _ := post.Send(k, m);
    }
  }

  /** The members of a route are in use by a connection, and listed in the order of their addresses. */
  lemma AddresseesAttended(hub: Hub, fate: Fate)
    requires hub.Members()
    ensures forall m :: m in hub.Addressees(fate) ==> hub.Attended(m)
    ensures Heaps.Rising(hub.Addressees(fate), Routing.MemberAt)
  {
    hide Routing.IsTrie, Routing.IsTraced, Routing.Table.Kids, Routing.Table.Linked, Routing.Table.Spaced;
    hide Routing.PathOf, Routing.Count, Hub.Attended;
  }

  /** Every member in use has a queue. */
  ghost predicate Boxed(hub: Hub, post: Queues.Post, box: Box)
    reads hub`all, hub.all`member, post`queues
  {
    forall c :: c in hub.all && c.member != null ==> c.member in box && box[c.member] < |post.queues|
  }

  lemma MailIsAddressed(hub: Hub, post: Queues.Post, box: Box, fate: Fate)
    requires hub.Members() && Boxed(hub, post, box)
    ensures Addressed(hub.MailFor(fate), box, |post.queues|)
  {
    hide Hub.Members, Hub.Replies, Hub.Addressees;
    AddresseesAttended(hub, fate);
  }

  /**
   Hub_service_message to the end. A message for a route that is not the hub's own goes to the queue
   of every member registered there, once per registration, in the order of the members' addresses, up
   to the first queue that is full; the sender is not told about that one. A callback that answers puts
   one new message into the sender's own queue, unless that is full. Anything else leaves the queues alone.
   */
  method Dispatch(hub: Hub, post: Queues.Post, box: Box, c: Connection, fate: Fate)
    returns (ok: bool, dead: bool, mail: Mail, m: Queues.Message)
    requires hub.Members() && c in hub.all && c.member != null && Routable(fate)
    requires post.Valid() && Boxed(hub, post, box)
    modifies hub.table, hub.table.paths.Values, c.member
    modifies post`msgs, post.queues, set k | 0 <= k < |post.queues| :: post.queues[k].messages
    ensures hub.Members() && post.Valid() && fresh(m)
    ensures ok == (old(hub.Comes(fate)) == Served) && dead == (old(hub.Comes(fate)) == Dies)
    ensures mail == old(hub.MailFor(fate)) && (mail.To? ==> Heaps.Rising(mail.members, Routing.MemberAt))
    ensures Deposits(old(post.Lists()), post.Lists(), post.Dims(), mail, box, c.member, m)
  {
    hide Routing.Table.Valid, Hub.Members, Queues.Post.Valid, Queues.Spread, Routable, Hub.Comes, Deposited;
    AddresseesAttended(hub, fate);
    MailIsAddressed(hub, post, box, fate);
    hide Hub.Addressees, Hub.Replies, Addressed;
    var to, replies;
    ok, dead, to, replies := hub.ServiceMessage(c, fate);
    mail := if replies then Reply else To(to);
    m := Deposit(post, box, mail, box[c.member]);
  }
}
