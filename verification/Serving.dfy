/** What the protocol can do: its shortest way to an answer over the broker, step by step, what a second push or a
    second read meets, what a crash leaves, and that nobody waits for ever
    (cmd/router/queue.go:350-388, 447-460, 478-514, 563-659). */
module Serving {
  import opened Roads
  import opened Queue

  /** The shortest run that answers a request over the broker: registered, pushed, claimed, computed,
      committed, read, delivered, received, returned. */
  function Serving(req: Req, a: Answer): seq<Action> {
    var id := Ours(0);
    [Register(id, 0, req), Push(id, 0), Claims(0, 0, 0, {0}), Compute(0, 0, Reply(id, Answered(a))), Commit(0, 0, 0),
     Read(0, [0]), Deliver(0, false), Receive(id), Return(id)]
  }

  /** Where it stands: what is in the mail, what worker 0 holds, what has been posted, and the rest. */
  ghost function Stage(req: Req, phase: Phase, slot: Option<Reply>, mail: map<nat, Msg>, claims: map<nat, Claim>,
                       posts: map<nat, Post>, readers: map<Addr, Reader>): State {
    var id := Ours(0);
    State(map[id := Submit(0, req, phase)], if phase.Returned? then {} else {(0, id)}, map[id := slot],
          mail, if mail == map[] then {} else {id}, claims,
          posts, if posts == map[] then {} else {(0, id)}, readers, if posts == map[] then map[]
              else map[(0, id) := 1], map[])
  }

  function Mail(req: Req, lease: Option<nat>, acked: bool): map<nat, Msg> {
    map[0 := Msg(Ours(0), Some(Job(Ours(0), 0, req)), lease, acked, false)]
  }

  function Mine(a: Answer): Reply { Reply(Ours(0), Answered(a)) }

  /** Where it stands after each of its steps. */
  ghost function Served(req: Req, a: Answer, k: nat): State {
    var posts := map[0 := Post(0, Mine(a), false)];
    var idle := map[0 := Claim(0, 0, {}, map[])];
    var done, read := Mail(req, None, true), map[0 := Reader([0], 1)];
    if k == 0 then START
    else if k == 1 then Stage(req, Registered, None, map[], map[], map[], map[])
    else if k == 2 then Stage(req, Waiting, None, Mail(req, None, false), map[], map[], map[])
    else if k == 3 then Stage(req, Waiting, None, Mail(req, Some(0), false), map[0 := Claim(0, 0, {0}, map[])],
        map[], map[])
    else if k == 4 then Stage(req, Waiting, None, Mail(req, Some(0), false),
        map[0 := Claim(0, 0, {0}, map[0 := Mine(a)])], map[], map[])
    else if k == 5 then Stage(req, Waiting, None, done, idle, posts, map[])
    else if k == 6 then Stage(req, Waiting, None, done, idle, posts, map[0 := Reader([0], 0)])
    else if k == 7 then Stage(req, Waiting, Some(Mine(a)), done, idle, posts, read)
    else if k == 8 then Stage(req, Received(Mine(a)), None, done, idle, posts, read)
    else Stage(req, Returned(Got(a)), None, done, idle, posts, read)
  }

  ghost predicate Goes(e: Engine, req: Req, k: nat)
    requires k < 9
  {
    var a := e.compute(req);
    var s, act := Served(req, a, k), Serving(req, a)[k];
    Enabled(e, s, act) && After(e, s, act) == Served(req, a, k + 1)
  }

  lemma Registers(e: Engine, req: Req)
    requires e.valid(req) && e.fits(e.compute(req))
    ensures Goes(e, req, 0)
  {
    var a := e.compute(req);
    assert START.waiting + {(0, Ours(0))} == {(0, Ours(0))};
    assert After(e, Served(req, a, 0), Serving(req, a)[0]) == Served(req, a, 1);
  }

  lemma Pushes(e: Engine, req: Req)
    requires e.valid(req) && e.fits(e.compute(req))
    ensures Goes(e, req, 1)
  {
    var a := e.compute(req);
    var s, t := Served(req, a, 1), Served(req, a, 2);
    assert 0 in t.routes;
    assert s.routesSeen + {Ours(0)} == t.routesSeen;
    assert s.routes[0 := Mail(req, None, false)[0]] == t.routes;
    assert s.submits[Ours(0) := Submit(0, req, Waiting)] == t.submits;
    assert After(e, s, Serving(req, a)[1]) == t;
  }

  function Leased(routes: map<nat, Msg>, msgs: set<nat>, lease: nat): map<nat, Msg> {
    map m | m in routes :: if m in msgs then routes[m].(lease := Some(lease)) else routes[m]
  }

  lemma ClaimsStep(e: Engine, s: State, w: nat, own: Addr, lease: nat, msgs: set<nat>)
    requires Enabled(e, s, Claims(w, own, lease, msgs))
    ensures After(e, s, Claims(w, own, lease, msgs))
         == s.(claims := s.claims[w := Claim(own, lease, msgs, map[])], routes := Leased(s.routes, msgs, lease))
  {
    hide Enabled;
  }

  lemma MayClaim(e: Engine, s: State, m: nat)
    requires 0 !in s.claims && s.routes.Keys == {m} && s.routes[m].lease.None? && !s.routes[m].acked
             && !s.routes[m].dead
    ensures Enabled(e, s, Claims(0, 0, 0, {m}))
  {}

  lemma OneLeased(msg: Msg)
    ensures Leased(map[0 := msg], {0}, 0) == map[0 := msg.(lease := Some(0))]
  {}

  lemma AroundClaim(req: Req, a: Answer)
    ensures var s, t := Served(req, a, 2), Served(req, a, 3);
      && s.claims == map[] && s.routes == Mail(req, None, false)
      && t == s.(claims := s.claims[0 := Claim(0, 0, {0}, map[])], routes := Mail(req, Some(0), false))
  {}

  lemma IsClaimed(e: Engine, req: Req)
    requires e.valid(req) && e.fits(e.compute(req))
    ensures Goes(e, req, 2)
  {
    hide Enabled, After, Leased, Served;
    var a := e.compute(req);
    var s := Served(req, a, 2);
    AroundClaim(req, a);
    OneLeased(s.routes[0]);
    MayClaim(e, s, 0);
    ClaimsStep(e, s, 0, 0, 0, {0});
  }

  lemma IsComputed(e: Engine, req: Req)
    requires e.valid(req) && e.fits(e.compute(req))
    ensures Goes(e, req, 3)
  {
    var a := e.compute(req);
    assert After(e, Served(req, a, 3), Serving(req, a)[3]) == Served(req, a, 4);
  }

  lemma OneClaimLess(a: Answer)
    ensures var c := Claim(0, 0, {0}, map[0 := Mine(a)]);
      c.(msgs := c.msgs - {0}, done := c.done - {0}) == Claim(0, 0, {}, map[])
  {
    assert map[0 := Mine(a)] - {0} == map[];
  }

  lemma CommittedOnce(s: State, t: State, c: Claim, msg: Msg, key: (Addr, Id))
    requires 0 in s.claims && 0 in s.routes && 0 in s.claims[0].done
    requires c == s.claims[0] && msg == s.routes[0] && key == (ReplyAddr(msg, c.own), ReplyId(msg))
    requires msg.lease == Some(c.lease) && !msg.acked && !msg.dead && key !in s.repliesSeen && key !in s.commits
    requires t == s.(claims := s.claims[0 := c.(msgs := c.msgs - {0}, done := c.done - {0})],
                     routes := s.routes[0 := msg.(acked := true, lease := None)],
                     posts := s.posts[0 := Post(key.0, c.done[0], false)],
                     repliesSeen := s.repliesSeen + {key}, commits := s.commits[key := 1])
    ensures Committed(s, 0, 0, 0) == t
  {}

  lemma CommitStep(e: Engine, s: State)
    requires 0 in s.claims && 0 in s.routes && 0 in s.claims[0].done && 0 !in s.posts
    ensures Enabled(e, s, Commit(0, 0, 0)) && After(e, s, Commit(0, 0, 0)) == Committed(s, 0, 0, 0)
  {}

  lemma BeforeCommit(req: Req, a: Answer)
    ensures var s := Served(req, a, 4);
      && s.claims == map[0 := Claim(0, 0, {0}, map[0 := Mine(a)])] && s.routes == Mail(req, Some(0), false)
      && s.posts == map[] && s.repliesSeen == {} && s.commits == map[]
  {}

  lemma AfterCommit(req: Req, a: Answer)
    ensures var s, t := Served(req, a, 4), Served(req, a, 5);
      && t == s.(claims := t.claims, routes := t.routes, posts := t.posts, repliesSeen := t.repliesSeen,
          commits := t.commits)
      && t.claims == map[0 := Claim(0, 0, {}, map[])] && t.routes == Mail(req, None, true)
      && t.posts == map[0 := Post(0, Mine(a), false)] && t.repliesSeen == {(0, Ours(0))}
          && t.commits == map[(0, Ours(0)) := 1]
  {
    assert 0 in map[0 := Post(0, Mine(a), false)];
  }

  lemma IsCommitted(e: Engine, req: Req)
    requires e.valid(req) && e.fits(e.compute(req))
    ensures Goes(e, req, 4)
  {
    hide Enabled, After, Committed, Served;
    var a := e.compute(req);
    var s, t := Served(req, a, 4), Served(req, a, 5);
    BeforeCommit(req, a);
    AfterCommit(req, a);
    OneClaimLess(a);
    CommittedOnce(s, t, s.claims[0], s.routes[0], (0, Ours(0)));
    CommitStep(e, s);
  }

  lemma IsRead(e: Engine, req: Req)
    requires e.valid(req) && e.fits(e.compute(req))
    ensures Goes(e, req, 5)
  {
    var a := e.compute(req);
    assert After(e, Served(req, a, 5), Serving(req, a)[5]) == Served(req, a, 6);
  }

  lemma DeliverStep(e: Engine, s: State, t: State, r: Reply)
    requires 0 in s.readers && s.readers[0] == Reader([0], 0) && 0 in s.posts && s.posts[0].reply == r
    requires (0, r.id) in s.waiting && r.id in s.slots && s.slots[r.id].None?
    requires t == s.(readers := s.readers[0 := Reader([0], 1)], slots := s.slots[r.id := Some(r)])
    ensures Enabled(e, s, Deliver(0, false)) && After(e, s, Deliver(0, false)) == t
  {}

  lemma IsDelivered(e: Engine, req: Req)
    requires e.valid(req) && e.fits(e.compute(req))
    ensures Goes(e, req, 6)
  {
    hide Enabled, After;
    var a := e.compute(req);
    var s, t := Served(req, a, 6), Served(req, a, 7);
    assert s.readers[0 := Reader([0], 1)] == t.readers;
    assert s.slots[Ours(0) := Some(Mine(a))] == t.slots;
    DeliverStep(e, s, t, Mine(a));
  }

  lemma ReceiveStep(e: Engine, s: State, t: State, id: Id, r: Reply)
    requires id in s.submits && s.submits[id].phase.Waiting? && id in s.slots && s.slots[id] == Some(r)
    requires t == s.(slots := s.slots[id := None], submits := s.submits[id := s.submits[id].(phase := Received(r))])
    ensures Enabled(e, s, Receive(id)) && After(e, s, Receive(id)) == t
  {}

  lemma IsReceived(e: Engine, req: Req)
    requires e.valid(req) && e.fits(e.compute(req))
    ensures Goes(e, req, 7)
  {
    hide Enabled, After;
    var a := e.compute(req);
    var s, t := Served(req, a, 7), Served(req, a, 8);
    assert s.slots[Ours(0) := None] == t.slots;
    assert s.submits[Ours(0) := Submit(0, req, Received(Mine(a)))] == t.submits;
    ReceiveStep(e, s, t, Ours(0), Mine(a));
  }

  lemma ReturnStep(e: Engine, s: State, t: State, id: Id, r: Reply)
    requires id in s.submits && s.submits[id].phase == Received(r) && r.body.Answered?
    requires t == s.(waiting := s.waiting - {(s.submits[id].addr, id)},
                     submits := s.submits[id := s.submits[id].(phase := Returned(Got(r.body.a)))])
    ensures Enabled(e, s, Return(id)) && After(e, s, Return(id)) == t
  {}

  lemma IsReturned(e: Engine, req: Req)
    requires e.valid(req) && e.fits(e.compute(req))
    ensures Goes(e, req, 8)
  {
    hide Enabled, After;
    var a := e.compute(req);
    var s, t := Served(req, a, 8), Served(req, a, 9);
    assert s.waiting - {(0, Ours(0))} == t.waiting;
    assert s.submits[Ours(0) := Submit(0, req, Returned(Got(a)))] == t.submits;
    ReturnStep(e, s, t, Ours(0), Mine(a));
  }

  lemma AllGo(e: Engine, req: Req, k: nat)
    requires e.valid(req) && e.fits(e.compute(req)) && k < 9
    ensures Goes(e, req, k)
  {
    hide Goes;
    Registers(e, req);
    Pushes(e, req);
    IsClaimed(e, req);
    IsComputed(e, req);
    IsCommitted(e, req);
    IsRead(e, req);
    IsDelivered(e, req);
    IsReceived(e, req);
    IsReturned(e, req);
  }

  lemma Ends(req: Req, a: Answer)
    ensures |Serving(req, a)| == 9 && Served(req, a, 0) == START
    ensures Served(req, a, 9).submits == map[Ours(0) := Submit(0, req, Returned(Got(a)))]
            && Served(req, a, 9).waiting == {}
  {}

  /** The protocol does answer: a run that ends with the submit's own answer and nobody registered. */
  lemma ItCanAnswer(e: Engine, req: Req)
    requires e.valid(req) && e.fits(e.compute(req))
    ensures var a := e.compute(req);
            && IsRun(e, Serving(req, a), seq(10, k requires 0 <= k < 10 => Served(req, a, k)))
            && Served(req, a, 9).submits == map[Ours(0) := Submit(0, req, Returned(Got(a)))]
            && Served(req, a, 9).waiting == {}
  {
    hide Enabled, After, Served, Serving;
    var a := e.compute(req);
    var run, states := Serving(req, a), seq(10, k requires 0 <= k < 10 => Served(req, a, k));
    Ends(req, a);
    forall k | 0 <= k < |run| ensures Enabled(e, states[k], run[k]) && states[k + 1] == After(e, states[k], run[k]) {
      AllGo(e, req, k);
    }
  }

  // ------------------------------------------------------------------ the same twice

  /** The message of a submit. */
  function Letter(s: State, id: Id): Msg
    requires id in s.submits
  {
    Msg(id, Some(Job(id, s.submits[id].addr, s.submits[id].req)), None, false, false)
  }

  /** A push whose answer was lost and that is made again adds nothing while the broker remembers it, and the same
      message once more when it has forgotten. */
  lemma PushedAgain(e: Engine, s: State, id: Id, m: nat, n: nat)
    requires id in s.submits && s.submits[id].phase.Registered? && id !in s.routesSeen
    requires m !in s.routes && n !in s.routes && m != n
    ensures Enabled(e, s, PushFails(id, m, true))
    ensures var once := After(e, s, PushFails(id, m, true));
      && once.routes == s.routes[m := Letter(s, id)]
      && Enabled(e, once, PushAgain(id, n)) && After(e, once, PushAgain(id, n)).routes == once.routes
      && Enabled(e, once, ForgetPush(id))
      && var forgotten := After(e, once, ForgetPush(id));
         Enabled(e, forgotten, PushAgain(id, n))
         && After(e, forgotten, PushAgain(id, n)).routes == s.routes[m := Letter(s, id)][n := Letter(s, id)]
  {
    var once := After(e, s, PushFails(id, m, true));
    assert once.submits[id].addr == s.submits[id].addr && once.submits[id].req == s.submits[id].req;
  }

  /** A batch of replies whose acknowledgement failed may be read again; one that was acknowledged may not. */
  lemma BatchReadAgain(e: Engine, s: State, addr: Addr, batch: seq<nat>, p: nat)
    requires Enabled(e, s, Read(addr, batch)) && p in batch
    ensures var read := After(e, s, Read(addr, batch)).(readers := s.readers[addr := Reader(batch, |batch|)]);
      && Enabled(e, read, AckBatch(addr, false)) && Enabled(e, read, AckBatch(addr, true))
      && Enabled(e, After(e, read, AckBatch(addr, false)), Read(addr, batch))
      && !Enabled(e, After(e, read, AckBatch(addr, true)), Read(addr, batch))
  {
    assert p in s.posts;
  }

  /** A free worker may take any four messages that wait, and no more; a free reader any sixteen replies. */
  lemma BatchesAreSmall(e: Engine, s: State, w: nat, own: Addr, lease: nat, msgs: set<nat>, addr: Addr, batch: seq<nat>)
    requires w !in s.claims && addr !in s.readers && batch != []
    requires forall m :: m in s.routes ==> s.routes[m].lease != Some(lease)
    requires forall m :: m in msgs ==>
               m in s.routes && s.routes[m].lease.None? && !s.routes[m].acked && !s.routes[m].dead
    requires forall p :: p in batch ==> p in s.posts && s.posts[p].addr == addr && !s.posts[p].acked
    ensures Enabled(e, s, Claims(w, own, lease, msgs)) <==> |msgs| <= 4
    ensures Enabled(e, s, Read(addr, batch)) <==> |batch| <= 16
  {
  }

  // ------------------------------------------------------------------ after a crash

  /** States that some actions lead through. */
  ghost predicate LeadsThrough(e: Engine, acts: seq<Action>, states: seq<State>) {
    |states| == |acts| + 1 &&
    forall k :: 0 <= k < |acts| ==> Enabled(e, states[k], acts[k]) && states[k + 1] == After(e, states[k], acts[k])
  }

  lemma OneMoreStep(e: Engine, acts: seq<Action>, states: seq<State>, a: Action)
    requires LeadsThrough(e, acts, states) && Enabled(e, states[|acts|], a)
    ensures LeadsThrough(e, acts + [a], states + [After(e, states[|acts|], a)])
  {
    hide Enabled, After;
  }

  lemma NoSteps(e: Engine, s: State)
    ensures LeadsThrough(e, [], [s])
  {}

  lemma CrashStep(e: Engine, s: State, w: nat)
    requires w in s.claims
    ensures Enabled(e, s, Crash(w)) && After(e, s, Crash(w)) == s.(claims := s.claims - {w})
  {}

  lemma ExpireStep(e: Engine, s: State, m: nat)
    requires m in s.routes && s.routes[m].lease.Some?
    ensures Enabled(e, s, LeaseExpires(m, false))
    ensures After(e, s, LeaseExpires(m, false))
         == s.(routes := s.routes[m := s.routes[m].(lease := None, dead := false)])
  {}

  lemma MayClaimOne(e: Engine, s: State, w: nat, own: Addr, lease: nat, m: nat)
    requires w !in s.claims && m in s.routes && s.routes[m].lease.None? && !s.routes[m].acked && !s.routes[m].dead
    requires forall x :: x in s.routes ==> s.routes[x].lease != Some(lease)
    ensures Enabled(e, s, Claims(w, own, lease, {m}))
  {}

  lemma ComputeStep(e: Engine, s: State, w: nat, m: nat, r: Reply)
    requires w in s.claims && m in s.claims[w].msgs && m in s.routes && MayReply(e, s.routes[m], r)
    ensures Enabled(e, s, Compute(w, m, r))
    ensures After(e, s, Compute(w, m, r))
         == s.(claims := s.claims[w := s.claims[w].(done := s.claims[w].done[m := r])])
  {
    hide MayReply;
  }

  lemma CommitsThere(e: Engine, s: State, w: nat, m: nat, p: nat, key: (Addr, Id))
    requires w in s.claims && m in s.claims[w].done && m in s.routes && p !in s.posts
    requires s.routes[m].lease == Some(s.claims[w].lease) && !s.routes[m].acked && !s.routes[m].dead
    requires key == (ReplyAddr(s.routes[m], s.claims[w].own), ReplyId(s.routes[m])) && key !in s.repliesSeen
    ensures Enabled(e, s, Commit(w, m, p))
    ensures var t := After(e, s, Commit(w, m, p));
      && m in t.routes && t.routes[m].acked && p in t.posts && t.posts[p] == Post(key.0, s.claims[w].done[m], false)
  {
    hide ReplyAddr, ReplyId, Count;
  }

  /** A crash loses nothing: once the lease of a message the crashed worker held has expired, any free worker, the
      crashed one come back included, may claim it, and its reply is posted and the message acknowledged. */
  lemma CrashLosesNothing(e: Engine, s: State, w: nat, m: nat, v: nat, own: Addr, lease: nat, r: Reply, p: nat)
      returns (states: seq<State>)
    requires w in s.claims && m in s.routes && s.routes[m].lease.Some? && !s.routes[m].acked && !s.routes[m].dead
    requires (v == w || v !in s.claims) && forall x :: x in s.routes ==> s.routes[x].lease != Some(lease)
    requires MayReply(e, s.routes[m], r) && p !in s.posts
    requires (ReplyAddr(s.routes[m], own), ReplyId(s.routes[m])) !in s.repliesSeen
    ensures LeadsThrough(e, [Crash(w), LeaseExpires(m, false), Claims(v, own, lease, {m}), Compute(v, m, r),
                             Commit(v, m, p)], states)
    ensures states[0] == s && m in states[5].routes && states[5].routes[m].acked
    ensures p in states[5].posts && states[5].posts[p] == Post(ReplyAddr(s.routes[m], own), r, false)
  {
    var msg := s.routes[m];
    var crashed := s.(claims := s.claims - {w});
    var free := crashed.(routes := s.routes[m := msg.(lease := None, dead := false)]);
    var claimed := free.(claims := free.claims[v := Claim(own, lease, {m}, map[])],
                         routes := Leased(free.routes, {m}, lease));
    var done := claimed.(claims := claimed.claims[v := Claim(own, lease, {m}, map[m := r])]);
    LeasedAgain(e, s.routes, m, own, lease, r);
    hide MayReply, ReplyAddr, ReplyId, Enabled, After, Leased, LeadsThrough;
    CrashStep(e, s, w);
    ExpireStep(e, crashed, m);
    MayClaimOne(e, free, v, own, lease, m);
    ClaimsStep(e, free, v, own, lease, {m});
    ComputeStep(e, claimed, v, m, r);
    assert claimed.claims[v].done[m := r] == map[m := r];
    CommitsThere(e, done, v, m, p, (ReplyAddr(msg, own), ReplyId(msg)));
    FiveSteps(e, s, crashed, free, claimed, done, Crash(w), LeaseExpires(m, false), Claims(v, own, lease, {m}),
        Compute(v, m, r), Commit(v, m, p));
    states := [s, crashed, free, claimed, done, After(e, done, Commit(v, m, p))];
  }

  lemma LeasedAgain(e: Engine, routes: map<nat, Msg>, m: nat, own: Addr, lease: nat, r: Reply)
    requires m in routes && MayReply(e, routes[m], r) && !routes[m].dead
    ensures var again := Leased(routes[m := routes[m].(lease := None, dead := false)], {m}, lease);
      && m in again && again[m] == routes[m].(lease := Some(lease)) && MayReply(e, again[m], r)
      && ReplyAddr(again[m], own) == ReplyAddr(routes[m], own) && ReplyId(again[m]) == ReplyId(routes[m])
  {}

  lemma FiveSteps(e: Engine, s0: State, s1: State, s2: State, s3: State, s4: State, a0: Action, a1: Action,
      a2: Action, a3: Action, a4: Action)
    requires Enabled(e, s0, a0) && s1 == After(e, s0, a0) && Enabled(e, s1, a1) && s2 == After(e, s1, a1)
    requires Enabled(e, s2, a2) && s3 == After(e, s2, a2) && Enabled(e, s3, a3) && s4 == After(e, s3, a3)
    requires Enabled(e, s4, a4)
    ensures LeadsThrough(e, [a0, a1, a2, a3, a4], [s0, s1, s2, s3, s4, After(e, s4, a4)])
  {
    hide Enabled, After, LeadsThrough;
    assert [] + [a0] == [a0] && [a0] + [a1] == [a0, a1] && [a0, a1] + [a2] == [a0, a1, a2];
    assert [a0, a1, a2] + [a3] == [a0, a1, a2, a3] && [a0, a1, a2, a3] + [a4] == [a0, a1, a2, a3, a4];
    assert [s0] + [s1] == [s0, s1] && [s0, s1] + [s2] == [s0, s1, s2] && [s0, s1, s2] + [s3] == [s0, s1, s2, s3];
    assert [s0, s1, s2, s3] + [s4] == [s0, s1, s2, s3, s4];
    assert [s0, s1, s2, s3, s4] + [After(e, s4, a4)] == [s0, s1, s2, s3, s4, After(e, s4, a4)];
    NoSteps(e, s0);
    OneMoreStep(e, [], [s0], a0);
    OneMoreStep(e, [a0], [s0, s1], a1);
    OneMoreStep(e, [a0, a1], [s0, s1, s2], a2);
    OneMoreStep(e, [a0, a1, a2], [s0, s1, s2, s3], a3);
    OneMoreStep(e, [a0, a1, a2, a3], [s0, s1, s2, s3, s4], a4);
  }

  lemma GivesUp(e: Engine, s: State, id: Id, m: nat)
    requires id in s.submits && m !in s.routes
    ensures s.submits[id].phase.Registered? ==>
              Enabled(e, s, PushFails(id, m, false)) && After(e, s, PushFails(id, m, false)) == WithPhase(s, id, Local)
    ensures s.submits[id].phase.Waiting? ==>
              Enabled(e, s, Timeout(id)) && After(e, s, Timeout(id)) == WithPhase(s, id, Local)
  {
    hide Enqueued;
  }

  lemma Returns(e: Engine, s: State, id: Id)
    requires id in s.submits
    requires s.submits[id].phase.Received? || s.submits[id].phase.Local? || s.submits[id].phase.Cancelled?
    ensures Enabled(e, s, Return(id))
    ensures id in After(e, s, Return(id)).submits && After(e, s, Return(id)).submits[id].phase.Returned?
  {
    hide OutcomeOf;
  }

  /** And nobody waits for ever: in whatever state a submit has not returned, it can return within two steps of
      its own. */
  lemma EverySubmitCanReturn(e: Engine, s: State, id: Id) returns (acts: seq<Action>, states: seq<State>)
    requires id in s.submits && !s.submits[id].phase.Returned?
    ensures |acts| <= 2 && LeadsThrough(e, acts, states) && states[0] == s
    ensures id in states[|acts|].submits && states[|acts|].submits[id].phase.Returned?
  {
    hide Enabled, After, LeadsThrough;
    var m := NewNumber(s.routes.Keys);
    NoSteps(e, s);
    assert [] + [Return(id)] == [Return(id)];
    if s.submits[id].phase.Registered? || s.submits[id].phase.Waiting? {
      GivesUp(e, s, id, m);
      var first := if s.submits[id].phase.Registered? then PushFails(id, m, false) else Timeout(id);
      var t := WithPhase(s, id, Local);
      OneMoreStep(e, [], [s], first);
      Returns(e, t, id);
      assert [] + [first] == [first] && [s] + [t] == [s, t];
      OneMoreStep(e, [first], [s, t], Return(id));
      acts, states := [first] + [Return(id)], [s, t] + [After(e, t, Return(id))];
    } else {
      Returns(e, s, id);
      OneMoreStep(e, [], [s], Return(id));
      acts, states := [Return(id)], [s] + [After(e, s, Return(id))];
    }
  }

  /** Some number is not taken. */
  lemma NewNumber(taken: set<nat>) returns (m: nat)
    ensures m !in taken
  {
    m := 0;
    var below: set<nat> := {};
    while m in taken
      invariant below <= taken && forall x: nat :: x in below <==> x < m
      decreases taken - below
    {
      below := below + {m};
      m := m + 1;
    }
  }
}
