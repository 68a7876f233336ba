/** Request and reply over the broker: submits that register before they push, competing workers, leases
    that expire, a reply line per instance and its one reader (cmd/router/queue.go:346-388, 425-695;
    the broker's rules are those internal/queenx/queenx.go:270-289, 321-326 states). */
module Queue {
  import opened Roads

  /** A request id: one of this service's own random ids, or whatever else a message may carry. The ids
      of newID are taken to be unique and never guessed. */
  datatype Id = Ours(n: nat) | Theirs(n: nat)

  type Addr = nat
  type Req = nat
  type Answer = nat

  /** What the engine answers, which answers fit into a message, which requests pass the gate. */
  datatype Engine = Engine(compute: Req -> Answer, fits: Answer -> bool, valid: Req -> bool)

  datatype Body = Answered(a: Answer) | TooLarge | Refused | Failed

  datatype Reply = Reply(id: Id, body: Body)

  datatype Job = Job(id: Id, addr: Addr, req: Req)

  /** What a worker may say to a request: its answer if it fits, or why there is none. */
  predicate Honest(e: Engine, req: Req, body: Body) {
    match body
    case Answered(a) => e.valid(req) && a == e.compute(req) && e.fits(a)
    case TooLarge => e.valid(req) && !e.fits(e.compute(req))
    case Refused => !e.valid(req)
    case Failed => true
  }

  datatype Outcome = Got(a: Answer) | Error

  datatype Phase = Registered | Waiting | Received(r: Reply) | Local | Cancelled | Returned(o: Outcome)

  datatype Submit = Submit(addr: Addr, req: Req, phase: Phase)

  /** A message of the routes queue. Its payload may be anything that was ever pushed. */
  datatype Msg = Msg(tx: Id, job: Option<Job>, lease: Option<nat>, acked: bool, dead: bool)

  /** A worker's claim: whose line it falls back to, its lease, what it has computed. */
  datatype Claim = Claim(own: Addr, lease: nat, msgs: set<nat>, done: map<nat, Reply>)

  datatype Post = Post(addr: Addr, reply: Reply, acked: bool)

  datatype Reader = Reader(batch: seq<nat>, next: nat)

  datatype State = State(
    submits: map<Id, Submit>,
    waiting: set<(Addr, Id)>,         // who is registered at each instance
    slots: map<Id, Option<Reply>>,    // the one-slot channels
    routes: map<nat, Msg>,
    routesSeen: set<Id>,              // the routes queue's dedup window
    claims: map<nat, Claim>,
    posts: map<nat, Post>,            // the reply lines
    repliesSeen: set<(Addr, Id)>,     // the replies queue's dedup window
    readers: map<Addr, Reader>,
    commits: map<(Addr, Id), nat>,    // for the record: replies committed,
    windows: map<(Addr, Id), nat>)    // and dedup entries that have expired

  function Count(m: map<(Addr, Id), nat>, k: (Addr, Id)): nat { if k in m then m[k] else 0 }

  predicate Active(p: Phase) { !p.Returned? }

  /** Where a worker sends its reply, and under which id: the job's, or the message's when it has none. */
  function ReplyId(m: Msg): Id { if m.job.Some? then m.job.value.id else m.tx }

  function ReplyAddr(m: Msg, own: Addr): Addr { if m.job.Some? then m.job.value.addr else own }

  /** What a worker may reply to a message. */
  predicate MayReply(e: Engine, m: Msg, r: Reply) {
    r.id == ReplyId(m) && if m.job.Some? then Honest(e, m.job.value.req, r.body) else r.body.Refused?
  }

  /** What a submit makes of where it stands when it returns. */
  function OutcomeOf(e: Engine, s: Submit): Outcome {
    match s.phase
    case Received(r) =>
      if r.body.Answered? then Got(r.body.a) else if r.body.TooLarge? then Got(e.compute(s.req)) else Error
    case Local => Got(e.compute(s.req))
    case _ => Error
  }

  // ------------------------------------------------------------------ the steps

  datatype Action =
    | AnswerHere(id: Id, addr: Addr, req: Req)      // the broker is known to be down
    | Register(id: Id, addr: Addr, req: Req)        // expect
    | Push(id: Id, m: nat)                          // the push went through
    | PushFails(id: Id, m: nat, landed: bool)       // it did not, or only its answer was lost
    | PushAgain(id: Id, m: nat)                     // the same push a second time
    | ForgetPush(id: Id)                            // the routes dedup entry expires
    | Foreign(m: nat, msg: Msg)                     // anything else anybody pushes
    | Claims(w: nat, own: Addr, lease: nat, msgs: set<nat>)
    | Compute(w: nat, m: nat, r: Reply)
    | Commit(w: nat, m: nat, p: nat)
    | Crash(w: nat)
    | LeaseExpires(m: nat, dead: bool)
    | ForgetReply(addr: Addr, id: Id)               // the replies dedup entry expires
    | Read(addr: Addr, batch: seq<nat>)
    | Deliver(addr: Addr, late: bool)               // late: looked up before a forget, sent after it
    | AckBatch(addr: Addr, ok: bool)
    | Receive(id: Id)
    | Timeout(id: Id)
    | Cancel(id: Id)
    | Return(id: Id)

  function WithPhase(s: State, id: Id, p: Phase): State
    requires id in s.submits
  {
    s.(submits := s.submits[id := s.submits[id].(phase := p)])
  }

  /** The broker takes a push unless its id is still in the dedup window. */
  function Enqueued(s: State, id: Id, m: nat): State
    requires id in s.submits
  {
    if id in s.routesSeen then s
    else
      var sub := s.submits[id];
      s.(routes := s.routes[m := Msg(id, Some(Job(id, sub.addr, sub.req)), None, false, false)],
         routesSeen := s.routesSeen + {id})
  }

  /** The transaction of one reply: it commits when the lease still holds and the reply's id is not in
      the window; stale and duplicate leave everything as it was. Either way the worker moves on. */
  function Committed(s: State, w: nat, m: nat, p: nat): State
    requires w in s.claims && m in s.claims[w].done && m in s.routes
  {
    var c, msg := s.claims[w], s.routes[m];
    var key := (ReplyAddr(msg, c.own), ReplyId(msg));
    var moved := s.(claims := s.claims[w := c.(msgs := c.msgs - {m}, done := c.done - {m})]);
    if msg.lease != Some(c.lease) || msg.acked || msg.dead || key in s.repliesSeen then moved
    else
      moved.(routes := s.routes[m := msg.(acked := true, lease := None)],
             posts := s.posts[p := Post(key.0, c.done[m], false)],
             repliesSeen := s.repliesSeen + {key},
             commits := s.commits[key := Count(s.commits, key) + 1])
  }

  /** deliver: into the slot of whoever is registered, if the slot is empty. */
  function Delivered(s: State, addr: Addr, r: Reply, late: bool): State {
    if || (addr, r.id) in s.waiting
       || (late && r.id in s.submits && s.submits[r.id].addr == addr)
    then if r.id in s.slots && s.slots[r.id].None? then s.(slots := s.slots[r.id := Some(r)]) else s
    else s
  }

  predicate Enabled(e: Engine, s: State, a: Action) {
    match a
    case AnswerHere(id, _, _) => id.Ours? && id !in s.submits
    case Register(id, _, _) => id.Ours? && id !in s.submits
    case Push(id, m) => id in s.submits && s.submits[id].phase.Registered? && m !in s.routes
    case PushFails(id, m, _) => id in s.submits && s.submits[id].phase.Registered? && m !in s.routes
    case PushAgain(id, m) => id in s.submits && !s.submits[id].phase.Registered? && m !in s.routes
    case ForgetPush(id) => id in s.routesSeen
    case Foreign(m, msg) => m !in s.routes && msg.tx.Theirs? && (msg.job.Some? ==> msg.job.value.id.Theirs?)
        && !msg.acked
    case Claims(w, _, lease, msgs) =>
      && w !in s.claims && |msgs| <= 4
      && (forall m :: m in msgs ==> m in s.routes && s.routes[m].lease.None? && !s.routes[m].acked && !s.routes[m].dead)
      && forall m :: m in s.routes ==> s.routes[m].lease != Some(lease)
    case Compute(w, m, r) => w in s.claims && m in s.claims[w].msgs && m in s.routes && MayReply(e, s.routes[m], r)
    case Commit(w, m, p) => w in s.claims && m in s.claims[w].done && m in s.routes && p !in s.posts
    case Crash(w) => w in s.claims
    case LeaseExpires(m, _) => m in s.routes && s.routes[m].lease.Some?
    case ForgetReply(addr, id) => (addr, id) in s.repliesSeen
    case Read(addr, batch) =>
      && addr !in s.readers && 0 < |batch| <= 16
      && forall p :: p in batch ==> p in s.posts && s.posts[p].addr == addr && !s.posts[p].acked
    case Deliver(addr, _) => addr in s.readers && s.readers[addr].next < |s.readers[addr].batch|
                          && s.readers[addr].batch[s.readers[addr].next] in s.posts
    case AckBatch(addr, _) => addr in s.readers && s.readers[addr].next == |s.readers[addr].batch|
    case Receive(id) => id in s.submits && s.submits[id].phase.Waiting? && id in s.slots && s.slots[id].Some?
    case Timeout(id) => id in s.submits && s.submits[id].phase.Waiting?
    case Cancel(id) => id in s.submits && s.submits[id].phase.Waiting?
    case Return(id) =>
      && id in s.submits
      && (s.submits[id].phase.Received? || s.submits[id].phase.Local? || s.submits[id].phase.Cancelled?)
  }

  function After(e: Engine, s: State, a: Action): State
    requires Enabled(e, s, a)
  {
    match a
    case AnswerHere(id, addr, req) => s.(submits := s.submits[id := Submit(addr, req, Returned(Got(e.compute(req))))])
    case Register(id, addr, req) =>
      s.(submits := s.submits[id := Submit(addr, req, Registered)],
         waiting := s.waiting + {(addr, id)}, slots := s.slots[id := None])
    case Push(id, m) => WithPhase(Enqueued(s, id, m), id, Waiting)
    case PushFails(id, m, landed) => WithPhase(if landed then Enqueued(s, id, m) else s, id, Local)
    case PushAgain(id, m) => Enqueued(s, id, m)
    case ForgetPush(id) => s.(routesSeen := s.routesSeen - {id})
    case Foreign(m, msg) => s.(routes := s.routes[m := msg.(lease := None)])
    case Claims(w, own, lease, msgs) =>
      s.(claims := s.claims[w := Claim(own, lease, msgs, map[])],
         routes := map m | m in s.routes :: if m in msgs then s.routes[m].(lease := Some(lease)) else s.routes[m])
    case Compute(w, m, r) => s.(claims := s.claims[w := s.claims[w].(done := s.claims[w].done[m := r])])
    case Commit(w, m, p) => Committed(s, w, m, p)
    case Crash(w) => s.(claims := s.claims - {w})
    case LeaseExpires(m, dead) => s.(routes := s.routes[m := s.routes[m].(lease := None, dead := dead)])
    case ForgetReply(addr, id) =>
      s.(repliesSeen := s.repliesSeen - {(addr, id)},
          windows := s.windows[(addr, id) := Count(s.windows, (addr, id)) + 1])
    case Read(addr, batch) => s.(readers := s.readers[addr := Reader(batch, 0)])
    case Deliver(addr, late) =>
      var r := s.readers[addr];
      Delivered(s.(readers := s.readers[addr := r.(next := r.next + 1)]), addr, s.posts[r.batch[r.next]].reply, late)
    case AckBatch(addr, ok) =>
      s.(readers := s.readers - {addr},
         posts := map p | p in s.posts :: if ok && p in s.readers[addr].batch then s.posts[p].(acked := true)
             else s.posts[p])
    case Receive(id) => WithPhase(s.(slots := s.slots[id := None]), id, Received(s.slots[id].value))
    case Timeout(id) => WithPhase(s, id, Local)
    case Cancel(id) => WithPhase(s, id, Cancelled)
    case Return(id) =>
      WithPhase(s.(waiting := s.waiting - {(s.submits[id].addr, id)}), id, Returned(OutcomeOf(e, s.submits[id])))
  }

  // ------------------------------------------------------------------ what every step keeps

  type Submits = map<Id, Submit>
  type Tally = map<(Addr, Id), nat>

  /** A reply under one of our ids is an honest reply to that submit, at its own address. */
  ghost predicate ReplyOk(e: Engine, submits: Submits, addr: Addr, r: Reply) {
    r.id.Ours? ==> r.id in submits && submits[r.id].addr == addr && Honest(e, submits[r.id].req, r.body)
  }

  /** Every message under one of our ids is that submit's own request. */
  ghost predicate MessageOk(submits: Submits, m: Msg) {
    if m.tx.Ours? then m.tx in submits && m.job == Some(Job(m.tx, submits[m.tx].addr, submits[m.tx].req))
    else m.job.Some? ==> m.job.value.id.Theirs?
  }

  ghost predicate RoutesOk(submits: Submits, routes: map<nat, Msg>) {
    forall m :: m in routes ==> MessageOk(submits, routes[m])
  }

  ghost predicate ClaimsOk(e: Engine, routes: map<nat, Msg>, claims: map<nat, Claim>) {
    forall w, m :: w in claims && m in claims[w].done ==> m in routes && MayReply(e, routes[m], claims[w].done[m])
  }

  ghost predicate PostsOk(e: Engine, submits: Submits, posts: map<nat, Post>) {
    forall p :: p in posts ==> ReplyOk(e, submits, posts[p].addr, posts[p].reply)
  }

  /** A channel only ever holds an honest reply to the request it was made for. */
  ghost predicate SlotsOk(e: Engine, submits: Submits, slots: map<Id, Option<Reply>>) {
    forall id :: id in slots && slots[id].Some? ==>
      slots[id].value.id == id && id in submits && Honest(e, submits[id].req, slots[id].value.body)
  }

  ghost predicate SubmitOk(e: Engine, id: Id, s: Submit) {
    && id.Ours?
    && (s.phase.Received? ==> s.phase.r.id == id && Honest(e, s.req, s.phase.r.body))
    && (s.phase.Returned? && s.phase.o.Got? ==> s.phase.o.a == e.compute(s.req))
  }

  ghost predicate SubmitsOk(e: Engine, submits: Submits) { forall id :: id in submits ==> SubmitOk(e, id, submits[id]) }

  /** Registered are exactly the submits that have not returned, each with its channel. */
  ghost predicate RegistryOk(submits: Submits, waiting: set<(Addr, Id)>, slots: map<Id, Option<Reply>>) {
    && (forall a, id :: (a, id) in waiting <==> id in submits && submits[id].addr == a && Active(submits[id].phase))
    && forall id :: id in submits && Active(submits[id].phase) ==> id in slots
  }

  /** A reply is committed once per life of its dedup entry. */
  ghost predicate WindowsOk(commits: Tally, windows: Tally, seen: set<(Addr, Id)>) {
    forall k :: Count(commits, k) == Count(windows, k) + (if k in seen then 1 else 0)
  }

  /** The acknowledged requests under one id. */
  ghost function AckedFor(routes: map<nat, Msg>, id: Id): set<nat> {
    set m | m in routes && routes[m].acked && routes[m].tx == id
  }

  /** As many replies were committed for an id as requests of it were acknowledged: the two happen
      together. And nothing is counted for a submit to come. */
  ghost predicate AcksOk(submits: Submits, routes: map<nat, Msg>, commits: Tally) {
    && (forall id :: id in submits ==> Count(commits, (submits[id].addr, id)) == |AckedFor(routes, id)|)
    && forall a, id :: (a, id) in commits && id.Ours? ==> id in submits && submits[id].addr == a
  }

  /** What a reader holds is its own line's. */
  ghost predicate ReadersOk(posts: map<nat, Post>, readers: map<Addr, Reader>) {
    forall addr, p :: addr in readers && p in readers[addr].batch ==> p in posts && posts[p].addr == addr
  }

  ghost predicate Inv(e: Engine, s: State) {
    && RoutesOk(s.submits, s.routes) && ClaimsOk(e, s.routes, s.claims) && PostsOk(e, s.submits, s.posts)
    && SlotsOk(e, s.submits, s.slots) && SubmitsOk(e, s.submits) && RegistryOk(s.submits, s.waiting, s.slots)
    && WindowsOk(s.commits, s.windows, s.repliesSeen) && AcksOk(s.submits, s.routes, s.commits)
    && ReadersOk(s.posts, s.readers)
  }

  const START: State := State(map[], {}, map[], map[], {}, map[], map[], {}, map[], map[], map[])

  // -- submits move on, and new ones come

  /** Every submit of old is still there, at its address and with its request. */
  ghost predicate Extends(old_: Submits, new_: Submits) {
    forall id :: id in old_ ==> id in new_ && new_[id].addr == old_[id].addr && new_[id].req == old_[id].req
  }

  lemma ExtendsKeepsTraffic(e: Engine, s: State, t: Submits)
    requires RoutesOk(s.submits, s.routes) && PostsOk(e, s.submits, s.posts) && SlotsOk(e, s.submits, s.slots)
    requires Extends(s.submits, t)
    ensures RoutesOk(t, s.routes) && PostsOk(e, t, s.posts) && SlotsOk(e, t, s.slots)
  {
    hide Honest;
  }

  lemma ExtendsKeepsAcks(s: State, t: Submits, id: Id)
    requires RoutesOk(s.submits, s.routes) && AcksOk(s.submits, s.routes, s.commits)
    requires Extends(s.submits, t) && t.Keys == s.submits.Keys + {id} && id.Ours?
    ensures AcksOk(t, s.routes, s.commits)
  {
    if id !in s.submits {
      assert AckedFor(s.routes, id) == {} by {
        forall m | m in s.routes ensures s.routes[m].tx != id { assert MessageOk(s.submits, s.routes[m]); }
      }
    }
  }

  /** A submit that begins: registered with an empty channel, or answered on the spot. */
  lemma BeginKeeps(e: Engine, s: State, a: Action)
    requires Inv(e, s) && Enabled(e, s, a) && (a.AnswerHere? || a.Register?)
    ensures Inv(e, After(e, s, a))
  {
    hide ReadersOk, RoutesOk, ClaimsOk, PostsOk, SlotsOk, WindowsOk, AcksOk, RegistryOk;
    var t := After(e, s, a);
    ExtendsKeepsTraffic(e, s, t.submits);
    ExtendsKeepsAcks(s, t.submits, a.id);
    BeginRegistry(e, s, a);
  }

  lemma BeginRegistry(e: Engine, s: State, a: Action)
    requires SlotsOk(e, s.submits, s.slots) && RegistryOk(s.submits, s.waiting, s.slots)
    requires Enabled(e, s, a) && (a.AnswerHere? || a.Register?)
    ensures var t := After(e, s, a); RegistryOk(t.submits, t.waiting, t.slots) && SlotsOk(e, t.submits, t.slots)
  {
    hide Honest;
  }

  /** A submit that changes its phase and does not return. */
  lemma PhaseKeeps(e: Engine, s: State, id: Id, p: Phase)
    requires Inv(e, s) && id in s.submits && Active(s.submits[id].phase)
    requires Active(p) && SubmitOk(e, id, s.submits[id].(phase := p))
    ensures Inv(e, WithPhase(s, id, p))
  {
    hide ReadersOk, RoutesOk, ClaimsOk, PostsOk, SlotsOk, WindowsOk, AcksOk, SubmitOk;
    var t := WithPhase(s, id, p);
    ExtendsKeepsTraffic(e, s, t.submits);
    ExtendsKeepsAcks(s, t.submits, id) by { assert SubmitOk(e, id, s.submits[id]); OursOnly(e, s, id); }
  }

  lemma OursOnly(e: Engine, s: State, id: Id)
    requires SubmitsOk(e, s.submits) && id in s.submits
    ensures id.Ours?
  {
    assert SubmitOk(e, id, s.submits[id]);
  }

  // -- messages come, are claimed and fall back

  /** The same messages with the same payload and the same acknowledgements, and perhaps new ones. */
  ghost predicate SameMail(old_: map<nat, Msg>, new_: map<nat, Msg>) {
    && (forall m :: m in old_ ==>
          m in new_ && new_[m].tx == old_[m].tx && new_[m].job == old_[m].job && new_[m].acked == old_[m].acked)
    && forall m :: m in new_ && m !in old_ ==> !new_[m].acked
  }

  lemma SameMailKeeps(e: Engine, s: State, t: map<nat, Msg>)
    requires ClaimsOk(e, s.routes, s.claims) && AcksOk(s.submits, s.routes, s.commits)
    requires SameMail(s.routes, t)
    ensures ClaimsOk(e, t, s.claims) && AcksOk(s.submits, t, s.commits)
  {
    hide Honest;
    forall id ensures AckedFor(t, id) == AckedFor(s.routes, id) {}
  }

  lemma SameMailRoutes(s: State, t: map<nat, Msg>)
    requires RoutesOk(s.submits, s.routes) && SameMail(s.routes, t)
    requires forall m :: m in t && m !in s.routes ==> MessageOk(s.submits, t[m])
    ensures RoutesOk(s.submits, t)
  {}

  lemma MailKeeps(e: Engine, s: State, t: State)
    requires Inv(e, s) && SameMail(s.routes, t.routes)
    requires forall m :: m in t.routes && m !in s.routes ==> MessageOk(s.submits, t.routes[m])
    requires t == s.(routes := t.routes, routesSeen := t.routesSeen)
    ensures Inv(e, t)
  {
    hide ReadersOk, RoutesOk, ClaimsOk, PostsOk, SlotsOk, WindowsOk, AcksOk, SubmitsOk, RegistryOk, SameMail, MessageOk;
    SameMailKeeps(e, s, t.routes);
    SameMailRoutes(s, t.routes);
  }

  /** One message comes, or changes its lease. */
  lemma MessageKeeps(e: Engine, s: State, t: State, m: nat, msg: Msg)
    requires Inv(e, s) && t == s.(routes := s.routes[m := msg], routesSeen := t.routesSeen)
    requires m in s.routes ==> msg.tx == s.routes[m].tx && msg.job == s.routes[m].job && msg.acked == s.routes[m].acked
    requires m !in s.routes ==> !msg.acked && MessageOk(s.submits, msg)
    ensures Inv(e, t)
  {
    hide Inv, MessageOk;
    MailKeeps(e, s, t);
  }

  /** A push under a submit's own id. */
  lemma EnqueueKeeps(e: Engine, s: State, id: Id, m: nat)
    requires Inv(e, s) && id in s.submits && m !in s.routes
    ensures Inv(e, Enqueued(s, id, m)) && Enqueued(s, id, m).submits == s.submits
  {
    if id !in s.routesSeen {
      hide RoutesOk, PostsOk, WindowsOk, ClaimsOk, SlotsOk, AcksOk, RegistryOk, SubmitsOk, ReadersOk;
      OursOnly(e, s, id);
      hide Inv;
      MessageKeeps(e, s, Enqueued(s, id, m), m, Enqueued(s, id, m).routes[m]);
    }
  }

  lemma PushKeeps(e: Engine, s: State, a: Action)
    requires Inv(e, s) && Enabled(e, s, a) && (a.Push? || a.PushFails? || a.PushAgain?)
    ensures Inv(e, After(e, s, a))
  {
    EnqueueKeeps(e, s, a.id, a.m);
    OursOnly(e, s, a.id);
    hide Inv, Enqueued;
    match a
    case Push(id, m) => PhaseKeeps(e, Enqueued(s, id, m), id, Waiting);
    case PushFails(id, m, landed) => PhaseKeeps(e, if landed then Enqueued(s, id, m) else s, id, Local);
    case PushAgain(_, _) =>
  }

  lemma GiveUpKeeps(e: Engine, s: State, a: Action)
    requires Inv(e, s) && Enabled(e, s, a) && (a.Timeout? || a.Cancel?)
    ensures Inv(e, After(e, s, a))
  {
    OursOnly(e, s, a.id);
    hide Inv;
    PhaseKeeps(e, s, a.id, if a.Timeout? then Local else Cancelled);
  }

  /** Everything else that touches only the routes queue. */
  lemma LeasesKeep(e: Engine, s: State, a: Action)
    requires Inv(e, s) && Enabled(e, s, a) && (a.ForgetPush? || a.Foreign? || a.LeaseExpires?)
    ensures Inv(e, After(e, s, a))
  {
    var t := After(e, s, a);
    if a.ForgetPush? {
      hide RoutesOk, PostsOk, WindowsOk, ClaimsOk, SlotsOk, AcksOk, RegistryOk, SubmitsOk, ReadersOk;
    } else {
      hide Inv;
      MessageKeeps(e, s, t, a.m, t.routes[a.m]);
    }
  }

  // -- workers

  /** A worker leases messages nobody holds. */
  lemma LeasedMail(routes: map<nat, Msg>, msgs: set<nat>, lease: nat)
    ensures SameMail(routes, map m | m in routes :: if m in msgs then routes[m].(lease := Some(lease)) else routes[m])
  {}

  lemma ClaimKeeps(e: Engine, s: State, a: Action)
    requires Inv(e, s) && Enabled(e, s, a) && a.Claims?
    ensures Inv(e, After(e, s, a))
  {
    hide RoutesOk, PostsOk, SlotsOk, WindowsOk, AcksOk, SubmitsOk, RegistryOk, MayReply, ReadersOk, SameMail;
    var t := After(e, s, a);
    LeasedMail(s.routes, a.msgs, a.lease);
    SameMailKeeps(e, s, t.routes);
    SameMailRoutes(s, t.routes) by { LeasedMail(s.routes, a.msgs, a.lease); }
    assert ClaimsOk(e, t.routes, t.claims);
  }

  lemma ClaimsKeep(e: Engine, s: State, a: Action)
    requires Inv(e, s) && Enabled(e, s, a) && (a.Claims? || a.Compute? || a.Crash?)
    ensures Inv(e, After(e, s, a))
  {
    if a.Claims? {
      hide Enabled, Inv;
      ClaimKeeps(e, s, a);
    } else {
      hide RoutesOk, PostsOk, SlotsOk, WindowsOk, AcksOk, SubmitsOk, RegistryOk, MayReply, ReadersOk;
    }
  }

  // -- the commit

  /** What the reply of a commit is, and where it goes. */
  lemma CommitIsHonest(e: Engine, s: State, w: nat, m: nat)
    requires RoutesOk(s.submits, s.routes) && ClaimsOk(e, s.routes, s.claims)
    requires w in s.claims && m in s.claims[w].done && m in s.routes
    ensures var key := (ReplyAddr(s.routes[m], s.claims[w].own), ReplyId(s.routes[m]));
            var r := s.claims[w].done[m];
            r.id == key.1 && ReplyOk(e, s.submits, key.0, r)
    ensures s.routes[m].tx.Ours? ==> ReplyId(s.routes[m]) == s.routes[m].tx
    ensures ReplyId(s.routes[m]).Ours? ==> s.routes[m].tx == ReplyId(s.routes[m])
  {
    hide Honest;
    assert MessageOk(s.submits, s.routes[m]);
    assert MayReply(e, s.routes[m], s.claims[w].done[m]);
  }

  /** The step acknowledges request m. */
  ghost predicate Acks(s: State, t: State, m: nat) {
    m in t.routes && t.routes[m].acked && !(m in s.routes && s.routes[m].acked)
  }

  /** The step posts something as p. */
  ghost predicate PostsNew(s: State, t: State, p: nat) { p in t.posts && p !in s.posts }

  /** What was posted stays posted, and what was acknowledged stays acknowledged. */
  ghost predicate NothingTakenBack(s: State, t: State) {
    && (forall p :: p in s.posts ==>
          p in t.posts && t.posts[p].addr == s.posts[p].addr && t.posts[p].reply == s.posts[p].reply)
    && forall m :: m in s.routes && s.routes[m].acked ==> m in t.routes && t.routes[m].acked
  }

  /** What a commit needs. */
  predicate MayCommit(s: State, w: nat, m: nat, p: nat) {
    w in s.claims && m in s.claims[w].done && m in s.routes && p !in s.posts
  }

  lemma IsCommit(e: Engine, s: State, a: Action)
    requires Enabled(e, s, a) && a.Commit?
    ensures MayCommit(s, a.w, a.m, a.p) && After(e, s, a) == Committed(s, a.w, a.m, a.p)
  {}

  lemma CommitTakesNothingBack(s: State, w: nat, m: nat, p: nat)
    requires MayCommit(s, w, m, p)
    ensures NothingTakenBack(s, Committed(s, w, m, p))
  {
    hide ReplyAddr, ReplyId, Count;
  }

  /** The one step that posts, acknowledges and counts. */
  lemma CommitDoesAllOrNothing(s: State, w: nat, m: nat, p: nat)
    requires MayCommit(s, w, m, p)
    ensures var t, c, msg := Committed(s, w, m, p), s.claims[w], s.routes[m];
      var key := (ReplyAddr(msg, c.own), ReplyId(msg));
      && (forall k :: Acks(s, t, k) ==> k == m && PostsNew(s, t, p))
      && (forall k :: PostsNew(s, t, k) ==>
            k == p && Acks(s, t, m) && t.posts[k] == Post(key.0, c.done[m], false)
            && t.commits == s.commits[key := Count(s.commits, key) + 1])
      && (PostsNew(s, t, p) || t.commits == s.commits)
  {
    hide ReplyAddr, ReplyId, Count;
  }

  /** The same replies are posted; whether they are acknowledged is another matter. */
  ghost predicate SamePosts(s: State, t: State) {
    && t.commits == s.commits && t.posts.Keys == s.posts.Keys
    && forall p :: p in s.posts ==> t.posts[p].addr == s.posts[p].addr && t.posts[p].reply == s.posts[p].reply
  }

  /** The same requests are acknowledged. */
  ghost predicate SameAcks(s: State, t: State) {
    && (forall m :: m in t.routes && t.routes[m].acked ==> m in s.routes && s.routes[m].acked)
    && forall m :: m in s.routes && s.routes[m].acked ==> m in t.routes && t.routes[m].acked
  }

  /** A step that leaves mail, posts and counts to another. */
  lemma Untouched(s: State, u: State, t: State)
    requires SamePosts(s, u) && SameAcks(s, u) && t.routes == u.routes && t.posts == u.posts && t.commits == u.commits
    ensures SamePosts(s, t) && SameAcks(s, t)
  {}

  /** A step that only writes one message, and does not acknowledge it. */
  lemma OneMessage(s: State, t: State, m: nat, msg: Msg)
    requires t.posts == s.posts && t.commits == s.commits && t.routes == s.routes[m := msg]
    requires msg.acked <==> m in s.routes && s.routes[m].acked
    ensures SamePosts(s, t) && SameAcks(s, t)
  {}

  lemma EnqueueLeaves(s: State, id: Id, m: nat)
    requires id in s.submits && m !in s.routes
    ensures SamePosts(s, Enqueued(s, id, m)) && SameAcks(s, Enqueued(s, id, m)) && id in Enqueued(s, id, m).submits
  {
    hide SamePosts, SameAcks;
    var t := Enqueued(s, id, m);
    if id in s.routesSeen { Same(s); } else { OneMessage(s, t, m, t.routes[m]); }
  }

  lemma Same(s: State)
    ensures SamePosts(s, s) && SameAcks(s, s)
  {}

  lemma ClaimsLeave(e: Engine, s: State, a: Action)
    requires Enabled(e, s, a) && a.Claims?
    ensures SamePosts(s, After(e, s, a)) && SameAcks(s, After(e, s, a))
  {}

  lemma AckBatchLeaves(e: Engine, s: State, a: Action)
    requires Enabled(e, s, a) && a.AckBatch?
    ensures SamePosts(s, After(e, s, a)) && SameAcks(s, After(e, s, a))
  {}

  lemma OthersLeave(e: Engine, s: State, a: Action)
    requires Enabled(e, s, a) && !a.Commit?
    ensures SamePosts(s, After(e, s, a)) && SameAcks(s, After(e, s, a))
  {
    hide OutcomeOf, MayReply, Enqueued, Count, SamePosts, SameAcks;
    var t := After(e, s, a);
    Same(s);
    match a {
      case Push(id, m) => EnqueueLeaves(s, id, m); Untouched(s, Enqueued(s, id, m), t);
      case PushFails(id, m, landed) =>
        EnqueueLeaves(s, id, m);
        Untouched(s, if landed then Enqueued(s, id, m) else s, t);
      case PushAgain(id, m) => EnqueueLeaves(s, id, m);
      case Foreign(m, msg) => OneMessage(s, t, m, t.routes[m]);
      case LeaseExpires(m, _) => OneMessage(s, t, m, t.routes[m]);
      case Claims(_, _, _, _) => ClaimsLeave(e, s, a);
      case AckBatch(_, _) => AckBatchLeaves(e, s, a);
      case _ => Untouched(s, s, t);
    }
  }

  /** In any step a request becomes acknowledged exactly when its reply is posted: only a commit does either,
      and then it does both, and counts the reply once; any other step posts, acknowledges and counts nothing. */
  lemma CommitIsAtomic(e: Engine, s: State, a: Action)
    requires Enabled(e, s, a)
    ensures var t := After(e, s, a);
      && NothingTakenBack(s, t)
      && (forall m :: Acks(s, t, m) ==> a.Commit? && a.m == m && PostsNew(s, t, a.p))
      && (forall p :: PostsNew(s, t, p) ==>
            a.Commit? && a.p == p && Acks(s, t, a.m)
            && var c, msg := s.claims[a.w], s.routes[a.m];
               var key := (ReplyAddr(msg, c.own), ReplyId(msg));
               t.posts[p] == Post(key.0, c.done[a.m], false)
                   && t.commits == s.commits[key := Count(s.commits, key) + 1])
      && ((forall m :: !Acks(s, t, m)) ==> t.commits == s.commits)
  {
    hide After, Enabled, Committed, ReplyAddr, ReplyId, Count;
    if a.Commit? {
      hide Acks, NothingTakenBack, PostsNew;
      IsCommit(e, s, a);
      CommitTakesNothingBack(s, a.w, a.m, a.p);
      CommitDoesAllOrNothing(s, a.w, a.m, a.p);
    } else {
      OthersLeave(e, s, a);
    }
  }

  lemma CountUp(submits: Submits, routes: map<nat, Msg>, commits: Tally, m: nat, key: (Addr, Id))
    requires AcksOk(submits, routes, commits) && m in routes && !routes[m].acked
    requires routes[m].tx.Ours? ==> key.1 == routes[m].tx
    requires key.1.Ours? ==> routes[m].tx == key.1 && key.1 in submits && submits[key.1].addr == key.0
    requires forall id :: id in submits ==> id.Ours?
    ensures AcksOk(submits, routes[m := routes[m].(acked := true, lease := None)],
        commits[key := Count(commits, key) + 1])
  {
    var after := routes[m := routes[m].(acked := true, lease := None)];
    forall id | id in submits
      ensures Count(commits[key := Count(commits, key) + 1], (submits[id].addr, id)) == |AckedFor(after, id)|
    {
      if routes[m].tx == id {
        assert AckedFor(after, id) == AckedFor(routes, id) + {m};
      } else {
        assert AckedFor(after, id) == AckedFor(routes, id);
      }
    }
  }

  lemma CommitClaims(e: Engine, s: State, w: nat, m: nat)
    requires ClaimsOk(e, s.routes, s.claims) && w in s.claims && m in s.claims[w].done && m in s.routes
    ensures var c := s.claims[w]; var claims := s.claims[w := c.(msgs := c.msgs - {m}, done := c.done - {m})];
            && ClaimsOk(e, s.routes, claims)
            && ClaimsOk(e, s.routes[m := s.routes[m].(acked := true, lease := None)], claims)
  {
    hide Honest;
  }

  lemma KeyIsOwn(e: Engine, submits: Submits, key: (Addr, Id), r: Reply)
    requires r.id == key.1 && ReplyOk(e, submits, key.0, r)
    ensures key.1.Ours? ==> key.1 in submits && submits[key.1].addr == key.0
  {}

  lemma CommitLines(e: Engine, s: State, p: nat, key: (Addr, Id), r: Reply)
    requires PostsOk(e, s.submits, s.posts) && WindowsOk(s.commits, s.windows, s.repliesSeen)
    requires ReplyOk(e, s.submits, key.0, r) && key !in s.repliesSeen
    requires ReadersOk(s.posts, s.readers) && p !in s.posts
    ensures PostsOk(e, s.submits, s.posts[p := Post(key.0, r, false)])
            && ReadersOk(s.posts[p := Post(key.0, r, false)], s.readers)
    ensures WindowsOk(s.commits[key := Count(s.commits, key) + 1], s.windows, s.repliesSeen + {key})
  {
    hide ReplyOk;
  }

  /** A commit posts the reply and acknowledges the request, both or neither. */
  lemma TransactionKeeps(e: Engine, s: State, w: nat, m: nat, p: nat)
    requires Inv(e, s) && MayCommit(s, w, m, p)
    ensures Inv(e, Committed(s, w, m, p))
  {
    hide RoutesOk, PostsOk, WindowsOk, ClaimsOk, SlotsOk, AcksOk, RegistryOk, MayReply, ReplyOk, SubmitsOk, ReadersOk;
    hide ReplyAddr, ReplyId;
    var msg := s.routes[m];
    CommitClaims(e, s, w, m);
    CommitIsHonest(e, s, w, m);
    var key := (ReplyAddr(msg, s.claims[w].own), ReplyId(msg));
    if !(msg.lease != Some(s.claims[w].lease) || msg.acked || msg.dead || key in s.repliesSeen) {
      forall id | id in s.submits ensures id.Ours? { OursOnly(e, s, id); }
      KeyIsOwn(e, s.submits, key, s.claims[w].done[m]);
      CountUp(s.submits, s.routes, s.commits, m, key);
      CommitLines(e, s, p, key, s.claims[w].done[m]);
      SameMailRoutesAck(s, m);
    }
  }

  lemma CommitKeeps(e: Engine, s: State, a: Action)
    requires Inv(e, s) && Enabled(e, s, a) && a.Commit?
    ensures Inv(e, After(e, s, a))
  {
    IsCommit(e, s, a);
    hide Inv, Enabled, After, Committed, MayCommit;
    TransactionKeeps(e, s, a.w, a.m, a.p);
  }

  lemma SameMailRoutesAck(s: State, m: nat)
    requires RoutesOk(s.submits, s.routes) && m in s.routes
    ensures RoutesOk(s.submits, s.routes[m := s.routes[m].(acked := true, lease := None)])
  {}

  lemma ForgetReplyKeeps(e: Engine, s: State, a: Action)
    requires Inv(e, s) && Enabled(e, s, a) && a.ForgetReply?
    ensures Inv(e, After(e, s, a))
  {
    hide ReadersOk, RoutesOk, ClaimsOk, PostsOk, SlotsOk, AcksOk, SubmitsOk, RegistryOk;
  }

  // -- the reader

  lemma ReaderKeeps(e: Engine, s: State, a: Action)
    requires Inv(e, s) && Enabled(e, s, a) && (a.Read? || a.AckBatch?)
    ensures Inv(e, After(e, s, a))
  {
    hide RoutesOk, ClaimsOk, SlotsOk, WindowsOk, AcksOk, SubmitsOk, RegistryOk, ReplyOk;
  }

  lemma DeliverSlots(e: Engine, s: State, addr: Addr, r: Reply, late: bool)
    requires SlotsOk(e, s.submits, s.slots) && RegistryOk(s.submits, s.waiting, s.slots) && SubmitsOk(e, s.submits)
    requires ReplyOk(e, s.submits, addr, r)
    ensures var t := Delivered(s, addr, r, late);
            && t == s.(slots := t.slots)
            && SlotsOk(e, s.submits, t.slots) && RegistryOk(s.submits, s.waiting, t.slots)
  {
    hide Honest, SubmitOk;
    if r.id in s.submits { OursOnly(e, s, r.id); }
  }

  lemma DeliverKeeps(e: Engine, s: State, a: Action)
    requires Inv(e, s) && Enabled(e, s, a) && a.Deliver?
    ensures Inv(e, After(e, s, a))
  {
    hide RoutesOk, ClaimsOk, WindowsOk, AcksOk, SubmitsOk, SlotsOk, RegistryOk, Delivered, ReplyOk;
    var r := s.readers[a.addr];
    var post := s.posts[r.batch[r.next]];
    assert ReplyOk(e, s.submits, post.addr, post.reply);
    DeliverSlots(e, s.(readers := s.readers[a.addr := r.(next := r.next + 1)]), a.addr, post.reply, a.late);
  }

  // -- a submit ends

  lemma ReceiveKeeps(e: Engine, s: State, a: Action)
    requires Inv(e, s) && Enabled(e, s, a) && a.Receive?
    ensures Inv(e, After(e, s, a))
  {
    var mid := s.(slots := s.slots[a.id := None]);
    assert Inv(e, mid) by {
      hide RoutesOk, ClaimsOk, PostsOk, WindowsOk, AcksOk, SubmitsOk, Honest;
    }
    OursOnly(e, s, a.id);
    PhaseKeeps(e, mid, a.id, Received(s.slots[a.id].value)) by {
      hide RoutesOk, ClaimsOk, PostsOk, WindowsOk, AcksOk, RegistryOk;
    }
    hide Inv;
  }

  lemma ReturnIsRight(e: Engine, s: State, id: Id)
    requires SubmitsOk(e, s.submits) && id in s.submits
    ensures SubmitsOk(e, s.submits[id := s.submits[id].(phase := Returned(OutcomeOf(e, s.submits[id])))])
  {
    assert SubmitOk(e, id, s.submits[id]);
  }

  lemma ReturnRegistry(e: Engine, s: State, id: Id, sub: Submit)
    requires RegistryOk(s.submits, s.waiting, s.slots) && id in s.submits
    requires sub.phase.Returned? && sub.addr == s.submits[id].addr
    ensures RegistryOk(s.submits[id := sub], s.waiting - {(sub.addr, id)}, s.slots)
  {}

  lemma ReturnKeeps(e: Engine, s: State, a: Action)
    requires Inv(e, s) && Enabled(e, s, a) && a.Return?
    ensures Inv(e, After(e, s, a))
  {
    hide ReadersOk, RoutesOk, ClaimsOk, PostsOk, SlotsOk, WindowsOk, AcksOk, SubmitsOk, RegistryOk, OutcomeOf;
    OursOnly(e, s, a.id);
    var t := After(e, s, a);
    ExtendsKeepsTraffic(e, s, t.submits);
    ExtendsKeepsAcks(s, t.submits, a.id);
    ReturnIsRight(e, s, a.id);
    ReturnRegistry(e, s, a.id, t.submits[a.id]);
  }

  // ------------------------------------------------------------------ every run

  lemma StepKeeps(e: Engine, s: State, a: Action)
    requires Inv(e, s) && Enabled(e, s, a)
    ensures Inv(e, After(e, s, a))
  {
    hide Inv, Enabled, After;
    match a
    case AnswerHere(_, _, _) => BeginKeeps(e, s, a);
    case Register(_, _, _) => BeginKeeps(e, s, a);
    case Push(_, _) => PushKeeps(e, s, a);
    case PushFails(_, _, _) => PushKeeps(e, s, a);
    case PushAgain(_, _) => PushKeeps(e, s, a);
    case ForgetPush(_) => LeasesKeep(e, s, a);
    case Foreign(_, _) => LeasesKeep(e, s, a);
    case Claims(_, _, _, _) => ClaimsKeep(e, s, a);
    case Compute(_, _, _) => ClaimsKeep(e, s, a);
    case Commit(_, _, _) => CommitKeeps(e, s, a);
    case Crash(_) => ClaimsKeep(e, s, a);
    case LeaseExpires(_, _) => LeasesKeep(e, s, a);
    case ForgetReply(_, _) => ForgetReplyKeeps(e, s, a);
    case Read(_, _) => ReaderKeeps(e, s, a);
    case Deliver(_, _) => DeliverKeeps(e, s, a);
    case AckBatch(_, _) => ReaderKeeps(e, s, a);
    case Receive(_) => ReceiveKeeps(e, s, a);
    case Timeout(_) => GiveUpKeeps(e, s, a);
    case Cancel(_) => GiveUpKeeps(e, s, a);
    case Return(_) => ReturnKeeps(e, s, a);
  }

  /** A run from the start: any steps, interleaved in any way, and the states they lead through. */
  ghost predicate IsRun(e: Engine, run: seq<Action>, states: seq<State>) {
    && |states| == |run| + 1 && states[0] == START
    && forall k :: 0 <= k < |run| ==> Enabled(e, states[k], run[k]) && states[k + 1] == After(e, states[k], run[k])
  }

  /** Every state of every run is safe. */
  lemma {:induction false} RunsAreSafe(e: Engine, run: seq<Action>, states: seq<State>, k: nat)
    requires IsRun(e, run, states) && k < |states|
    ensures Inv(e, states[k])
  {
    if k == 0 {
      assert Inv(e, START) by { assert forall id :: AckedFor(START.routes, id) == {}; }
    } else {
      RunsAreSafe(e, run, states, k - 1);
      OneStepOn(e, run, states, k - 1);
      hide Inv, Enabled, After;
      StepKeeps(e, states[k - 1], run[k - 1]);
    }
  }

  lemma OneStepOn(e: Engine, run: seq<Action>, states: seq<State>, k: nat)
    requires IsRun(e, run, states) && k < |run|
    ensures Enabled(e, states[k], run[k]) && states[k + 1] == After(e, states[k], run[k])
  {
    hide Enabled, After;
  }

  /** A reply to a request: its own answer when it is valid and fits, word that it does not fit or is not valid when
      that is so, or a failure. */
  ghost predicate IsHisOwn(e: Engine, req: Req, body: Body) {
    && (body.Answered? ==> e.valid(req) && body.a == e.compute(req) && e.fits(body.a))
    && (body == TooLarge ==> e.valid(req) && !e.fits(e.compute(req)))
    && (body == Refused ==> !e.valid(req))
  }

  /** No answer is crossed: whatever a submit returns was computed from its own request, and whatever
      stands in its channel meanwhile is an honest reply to it under its own id. */
  lemma AnswersAreNotCrossed(e: Engine, run: seq<Action>, states: seq<State>, k: nat, id: Id)
    requires IsRun(e, run, states) && k < |states| && id in states[k].submits
    ensures var t := states[k];
            t.submits[id].phase.Returned? && t.submits[id].phase.o.Got? ==>
                t.submits[id].phase.o.a == e.compute(t.submits[id].req)
    ensures var t := states[k];
            id in t.slots && t.slots[id].Some? ==>
              t.slots[id].value.id == id && IsHisOwn(e, t.submits[id].req, t.slots[id].value.body)
  {
    hide IsRun;
    RunsAreSafe(e, run, states, k);
    assert SubmitOk(e, id, states[k].submits[id]);
  }

  /** A reply commits at most once per life of its dedup entry, and exactly as often as a request of its
      submit is acknowledged. */
  lemma RepliesCommitOnce(e: Engine, run: seq<Action>, states: seq<State>, k: nat, id: Id)
    requires IsRun(e, run, states) && k < |states| && id in states[k].submits
    ensures var t := states[k]; var key := (t.submits[id].addr, id);
            && Count(t.commits, key) <= Count(t.windows, key) + 1
            && Count(t.commits, key) == |AckedFor(t.routes, id)|
  {
    hide IsRun;
    RunsAreSafe(e, run, states, k);
  }

  /** No answer is lost at the door: a reply read off the line while its submit has not returned finds it
      registered, and leaves its channel full. */
  lemma RepliesFindTheirWaiter(e: Engine, run: seq<Action>, states: seq<State>, k: nat, addr: Addr, late: bool)
    requires IsRun(e, run, states) && k < |states| && Enabled(e, states[k], Deliver(addr, late))
    ensures var t := states[k]; var r := t.posts[t.readers[addr].batch[t.readers[addr].next]].reply;
            var after := After(e, t, Deliver(addr, late));
            r.id in t.submits && Active(t.submits[r.id].phase) ==>
              (addr, r.id) in t.waiting && r.id in after.slots && after.slots[r.id].Some?
  {
    hide IsRun, RoutesOk, ClaimsOk, WindowsOk, AcksOk, SlotsOk, Honest;
    RunsAreSafe(e, run, states, k);
    var t := states[k];
    var post := t.posts[t.readers[addr].batch[t.readers[addr].next]];
    if post.reply.id in t.submits {
      OursOnly(e, t, post.reply.id);
      assert ReplyOk(e, t.submits, post.addr, post.reply);
    }
  }

  /** Nothing is left registered for a submit that has returned, and nobody is dropped before. */
  lemma RegistryIsExact(e: Engine, run: seq<Action>, states: seq<State>, k: nat, addr: Addr, id: Id)
    requires IsRun(e, run, states) && k < |states|
    ensures var t := states[k];
            (addr, id) in t.waiting <==> id in t.submits && t.submits[id].addr == addr && !t.submits[id].phase.Returned?
  {
    hide IsRun, RoutesOk, ClaimsOk, WindowsOk, AcksOk, SlotsOk, Honest;
    RunsAreSafe(e, run, states, k);
  }

  // ------------------------------------------------------------------ what a submit returns, and why

  /** The step at which a submit is turned away: its client leaves, or it takes a refusal or a failure out of
      its channel. */
  ghost predicate TurnsAway(s: State, a: Action, id: Id) {
    || a == Cancel(id)
    || (a == Receive(id) && id in s.slots && s.slots[id].Some? && s.slots[id].value.body in {Refused, Failed})
  }

  ghost predicate TakesRefusal(s: State, a: Action, id: Id) {
    a == Receive(id) && id in s.slots && s.slots[id].Some? && s.slots[id].value.body == Refused
  }

  ghost predicate TurnedAway(run: seq<Action>, states: seq<State>, k: nat, id: Id)
    requires k <= |run| < |states|
  {
    exists j :: 0 <= j < k && TurnsAway(states[j], run[j], id)
  }

  /** The step with which a submit begins. */
  predicate Begins(a: Action, id: Id, addr: Addr, req: Req) {
    a == Register(id, addr, req) || a == AnswerHere(id, addr, req)
  }

  ghost predicate Begun(run: seq<Action>, k: nat, id: Id, addr: Addr, req: Req)
    requires k <= |run|
  {
    exists j :: 0 <= j < k && Begins(run[j], id, addr, req)
  }

  /** Where a submit stands says whether it was turned away. */
  predicate Telling(p: Phase, away: bool) {
    match p
    case Registered => !away
    case Waiting => !away
    case Local => !away
    case Cancelled => away
    case Received(r) => away <==> r.body in {Refused, Failed}
    case Returned(o) => away <==> o.Error?
  }

  /** What one step says of one submit: whether it was turned away by then, and what it was begun with. */
  ghost predicate Explains(submits: Submits, id: Id, away: bool) {
    if id in submits then Telling(submits[id].phase, away) else !away
  }

  /** Everybody's steps but a submit's own leave the submits alone. */
  predicate OfSubmit(a: Action, id: Id) {
    match a
    case AnswerHere(i, _, _) => i == id
    case Register(i, _, _) => i == id
    case Push(i, _) => i == id
    case PushFails(i, _, _) => i == id
    case Receive(i) => i == id
    case Timeout(i) => i == id
    case Cancel(i) => i == id
    case Return(i) => i == id
    case _ => false
  }

  ghost predicate SameSubmit(s: Submits, t: Submits, id: Id) {
    (id in s <==> id in t) && (id in s ==> t[id] == s[id])
  }

  lemma MailLeavesSubmits(s: State, id: Id, m: nat)
    requires id in s.submits
    ensures Enqueued(s, id, m).submits == s.submits
  {
  }

  lemma DeliveryLeavesSubmits(s: State, addr: Addr, r: Reply, late: bool)
    ensures Delivered(s, addr, r, late).submits == s.submits
  {
  }

  lemma CommitLeavesSubmits(s: State, w: nat, m: nat, p: nat)
    requires w in s.claims && m in s.claims[w].done && m in s.routes
    ensures Committed(s, w, m, p).submits == s.submits
  {
    hide ReplyAddr, ReplyId, Count;
  }

  lemma MessagesPassBy(e: Engine, s: State, a: Action)
    requires Enabled(e, s, a) && (a.PushAgain? || a.ForgetPush? || a.Foreign? || a.LeaseExpires? || a.ForgetReply?)
    ensures After(e, s, a).submits == s.submits
  {
    hide Enqueued, Count;
    if a.PushAgain? { MailLeavesSubmits(s, a.id, a.m); }
  }

  lemma WorkersPassBy(e: Engine, s: State, a: Action)
    requires Enabled(e, s, a) && (a.Claims? || a.Compute? || a.Commit? || a.Crash?)
    ensures After(e, s, a).submits == s.submits
  {
    hide Committed, MayReply;
    if a.Commit? { CommitLeavesSubmits(s, a.w, a.m, a.p); }
  }

  lemma ReadersPassBy(e: Engine, s: State, a: Action)
    requires Enabled(e, s, a) && (a.Read? || a.Deliver? || a.AckBatch?)
    ensures After(e, s, a).submits == s.submits
  {
    hide Delivered;
    if a.Deliver? {
      var r := s.readers[a.addr];
      DeliveryLeavesSubmits(s.(readers := s.readers[a.addr := r.(next := r.next + 1)]), a.addr,
          s.posts[r.batch[r.next]].reply, a.late);
    }
  }

  lemma PushesPassBy(e: Engine, s: State, a: Action, id: Id)
    requires Enabled(e, s, a) && (a.Push? || a.PushFails?) && a.id != id
    ensures SameSubmit(s.submits, After(e, s, a).submits, id)
  {
    hide Enqueued;
    MailLeavesSubmits(s, a.id, a.m);
  }

  lemma SubmitsPassBy(e: Engine, s: State, a: Action, id: Id)
    requires Enabled(e, s, a) && (a.AnswerHere? || a.Register? || a.Receive? || a.Timeout? || a.Cancel? || a.Return?)
    requires a.id != id
    ensures SameSubmit(s.submits, After(e, s, a).submits, id)
  {
    hide OutcomeOf;
  }

  lemma OthersPassBy(e: Engine, s: State, a: Action, id: Id)
    requires Enabled(e, s, a) && !OfSubmit(a, id)
    ensures SameSubmit(s.submits, After(e, s, a).submits, id)
  {
    hide Enabled, After;
    match a
    case PushAgain(_, _) => MessagesPassBy(e, s, a);
    case ForgetPush(_) => MessagesPassBy(e, s, a);
    case Foreign(_, _) => MessagesPassBy(e, s, a);
    case LeaseExpires(_, _) => MessagesPassBy(e, s, a);
    case ForgetReply(_, _) => MessagesPassBy(e, s, a);
    case Claims(_, _, _, _) => WorkersPassBy(e, s, a);
    case Compute(_, _, _) => WorkersPassBy(e, s, a);
    case Commit(_, _, _) => WorkersPassBy(e, s, a);
    case Crash(_) => WorkersPassBy(e, s, a);
    case Read(_, _) => ReadersPassBy(e, s, a);
    case Deliver(_, _) => ReadersPassBy(e, s, a);
    case AckBatch(_, _) => ReadersPassBy(e, s, a);
    case Push(_, _) => PushesPassBy(e, s, a, id);
    case PushFails(_, _, _) => PushesPassBy(e, s, a, id);
    case _ => SubmitsPassBy(e, s, a, id);
  }

  lemma OneStepTells(e: Engine, s: State, a: Action, id: Id, away: bool)
    requires Enabled(e, s, a) && OfSubmit(a, id) && Explains(s.submits, id, away)
    ensures Explains(After(e, s, a).submits, id, away || TurnsAway(s, a, id))
  {
  }

  lemma OneStepBegins(e: Engine, s: State, a: Action, id: Id)
    requires Enabled(e, s, a) && OfSubmit(a, id)
    ensures id in After(e, s, a).submits
    ensures var sub := After(e, s, a).submits[id];
      Begins(a, id, sub.addr, sub.req)
      || (id in s.submits && sub.addr == s.submits[id].addr && sub.req == s.submits[id].req)
  {
  }

  lemma OneStepMore(run: seq<Action>, states: seq<State>, k: nat, id: Id, addr: Addr, req: Req)
    requires k < |run| < |states|
    ensures TurnedAway(run, states, k + 1, id) <==> TurnedAway(run, states, k, id) || TurnsAway(states[k], run[k], id)
    ensures Begun(run, k + 1, id, addr, req) <==> Begun(run, k, id, addr, req) || Begins(run[k], id, addr, req)
  {
    hide TurnsAway, Begins;
  }

  lemma {:induction false} EverySubmitIsExplained(e: Engine, run: seq<Action>, states: seq<State>, k: nat, id: Id)
    requires IsRun(e, run, states) && k < |states|
    ensures Explains(states[k].submits, id, TurnedAway(run, states, k, id))
    ensures id in states[k].submits ==>
              Begun(run, k, id, states[k].submits[id].addr, states[k].submits[id].req)
  {
    hide Enabled, After, Telling, TurnsAway, Begins;
    if k > 0 {
      var s, t, a := states[k - 1], states[k], run[k - 1];
      EverySubmitIsExplained(e, run, states, k - 1, id);
      OneStepOn(e, run, states, k - 1);
      hide IsRun;
      if OfSubmit(a, id) {
        OneStepTells(e, s, a, id, TurnedAway(run, states, k - 1, id));
        OneStepBegins(e, s, a, id);
      } else {
        OthersPassBy(e, s, a, id);
        NotOfSubmit(s, a, id);
      }
      hide TurnedAway, Begun;
      if id in t.submits { OneStepMore(run, states, k - 1, id, t.submits[id].addr, t.submits[id].req); }
      else { OneStepMore(run, states, k - 1, id, 0, 0); }
    }
  }

  lemma NotOfSubmit(s: State, a: Action, id: Id)
    requires !OfSubmit(a, id)
    ensures !TurnsAway(s, a, id)
  {
  }

  /** A submit that took a refusal had a request that is not valid. */
  lemma {:induction false} RefusalsAreDeserved(e: Engine, run: seq<Action>, states: seq<State>, k: nat, id: Id, j: nat)
    requires IsRun(e, run, states) && j < k < |states|
    requires TakesRefusal(states[j], run[j], id)
    ensures id in states[k].submits && !e.valid(states[k].submits[id].req)
    decreases k
  {
    var s, a := states[k - 1], run[k - 1];
    OneStepOn(e, run, states, k - 1);
    hide IsRun, Enabled, After;
    if j < k - 1 {
      RefusalsAreDeserved(e, run, states, k - 1, id, j);
    } else {
      ReceivesItsOwn(e, s, id);
      AnswersAreNotCrossed(e, run, states, j, id);
    }
    if OfSubmit(a, id) { OneStepBegins(e, s, a, id); BegunOnce(e, s, a, id); } else { OthersPassBy(e, s, a, id); }
  }

  lemma ReceivesItsOwn(e: Engine, s: State, id: Id)
    requires Enabled(e, s, Receive(id))
    ensures id in s.submits
  {
  }

  lemma BegunOnce(e: Engine, s: State, a: Action, id: Id)
    requires Enabled(e, s, a) && OfSubmit(a, id) && id in s.submits
    ensures id in After(e, s, a).submits && After(e, s, a).submits[id].req == s.submits[id].req
  {
    hide OutcomeOf;
  }

  /** What a submit returned, and why, over every run: an error if and only if its client left or it received a
      refusal, which only a request that is not valid does, or a failure; else what the engine computes for the
      request it was begun with, whether the broker was known to be down, the push failed, the wait ran out, the
      answer was too large or it came. */
  lemma SubmitReturnsItsAnswer(e: Engine, run: seq<Action>, states: seq<State>, k: nat, id: Id)
    requires IsRun(e, run, states) && k < |states| && id in states[k].submits && states[k].submits[id].phase.Returned?
    ensures var sub := states[k].submits[id];
      && Begun(run, k, id, sub.addr, sub.req)
      && (sub.phase.o.Error? <==> TurnedAway(run, states, k, id))
      && (!TurnedAway(run, states, k, id) ==> sub.phase.o == Got(e.compute(sub.req)))
    ensures e.valid(states[k].submits[id].req) ==> forall j :: 0 <= j < k ==> !TakesRefusal(states[j], run[j], id)
  {
    EverySubmitIsExplained(e, run, states, k, id);
    AnswersAreNotCrossed(e, run, states, k, id);
    hide IsRun;
    if j :| 0 <= j < k && TakesRefusal(states[j], run[j], id) { RefusalsAreDeserved(e, run, states, k, id, j); }
  }
}
