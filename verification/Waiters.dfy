/** The waiting map of one instance: a one-slot channel for every submit that waits
    (cmd/router/queue.go:425-460), in step with the protocol's own registry. */
module Waiters {
  import opened Roads
  import opened Queue

  /** A channel of capacity one. */
  class Channel {
    var slot: Option<Reply>

    constructor ()
      ensures slot == None
    {
      slot := None;
    }
  }

  /** What stands in the channels of the instance at addr is what the protocol says. */
  ghost predicate Mirrored(open: map<Id, Option<Reply>>, s: State, addr: Addr) {
    && (forall id :: (addr, id) in s.waiting <==> id in open)
    && forall id :: id in open ==> id in s.slots && s.slots[id] == open[id]
  }

  lemma RegisterMirrors(open: map<Id, Option<Reply>>, e: Engine, s: State, addr: Addr, id: Id, req: Req)
    requires Mirrored(open, s, addr) && Enabled(e, s, Register(id, addr, req))
    ensures Mirrored(open[id := None], After(e, s, Register(id, addr, req)), addr)
  {}

  lemma ReturnMirrors(open: map<Id, Option<Reply>>, e: Engine, s: State, id: Id)
    requires Enabled(e, s, Return(id)) && Mirrored(open, s, s.submits[id].addr)
    ensures Mirrored(open - {id}, After(e, s, Return(id)), s.submits[id].addr)
  {}

  lemma AllRegister(open: map<Id, Option<Reply>>, id: Id)
    ensures forall e, s, addr, req :: Mirrored(open, s, addr) && Enabled(e, s, Register(id, addr, req)) ==>
              Mirrored(open[id := None], After(e, s, Register(id, addr, req)), addr)
  {
    hide Enabled, After, Mirrored;
    forall e, s, addr, req | Mirrored(open, s, addr) && Enabled(e, s, Register(id, addr, req))
      ensures Mirrored(open[id := None], After(e, s, Register(id, addr, req)), addr)
    {
      RegisterMirrors(open, e, s, addr, id, req);
    }
  }

  lemma AllReturn(open: map<Id, Option<Reply>>, id: Id)
    ensures forall e, s, addr :: Mirrored(open, s, addr) && Enabled(e, s, Return(id)) && s.submits[id].addr == addr ==>
              Mirrored(open - {id}, After(e, s, Return(id)), addr)
  {
    hide After, Mirrored;
    forall e, s, addr | Mirrored(open, s, addr) && Enabled(e, s, Return(id)) && s.submits[id].addr == addr
      ensures Mirrored(open - {id}, After(e, s, Return(id)), addr)
    {
      ReturnMirrors(open, e, s, id);
    }
  }

  class Waiters {
    var waiting: map<Id, Channel>

    /** No two submits share a channel. */
    ghost predicate Valid()
      reads this
    {
      forall i, j :: i in waiting && j in waiting && i != j ==> waiting[i] != waiting[j]
    }

    /** Who waits, and what stands in each channel. */
    ghost function Open(): map<Id, Option<Reply>>
      reads this, waiting.Values
    {
      map id | id in waiting :: waiting[id].slot
    }

    /** This map is what the protocol knows of the instance at addr. */
    ghost predicate Mirrors(s: State, addr: Addr)
      reads this, waiting.Values
    {
      Mirrored(Open(), s, addr)
    }

    constructor ()
      ensures Valid() && Open() == map[]
    {
      waiting := map[];
    }

    /** A new channel under the id: the protocol's registration. */
    method Expect(id: Id) returns (ch: Channel)
      requires Valid()
      modifies this
      ensures Valid() && fresh(ch) && id in waiting && waiting[id] == ch
      ensures Open() == old(Open())[id := None]
      ensures forall e, s, addr, req :: old(Mirrors(s, addr)) && Enabled(e, s, Register(id, addr, req)) ==>
                Mirrors(After(e, s, Register(id, addr, req)), addr)
    {
      hide Enabled, After, Mirrored;
      AllRegister(Open(), id);
      ch := new Channel();
      waiting := waiting[id := ch];
    }

    /** The id is dropped: the protocol's return. */
    method Forget(id: Id)
      requires Valid()
      modifies this
      ensures Valid() && Open() == old(Open()) - {id}
      ensures forall e, s, addr :: old(Mirrors(s, addr)) && Enabled(e, s, Return(id)) && s.submits[id].addr == addr ==>
                Mirrors(After(e, s, Return(id)), addr)
    {
      hide After, Mirrored;
      AllReturn(Open(), id);
      waiting := waiting - {id};
    }

    /** Hands a reply to whoever waits for it; full channels and strangers leave everything as it was.
        What it does is the protocol's delivery step. */
    method Deliver(r: Reply) returns (ok: bool)
      requires Valid()
      modifies waiting.Values
      ensures Valid()
      ensures ok <==> r.id in old(Open()) && old(Open())[r.id].None?
      ensures Open() == if ok then old(Open())[r.id := Some(r)] else old(Open())
      ensures forall s, addr :: old(Mirrors(s, addr)) ==> Mirrors(Delivered(s, addr, r, false), addr)
    {
      if r.id in waiting {
        var ch := waiting[r.id];
        assert ch in waiting.Values;
        if ch.slot.None? {
          ch.slot := Some(r);
          return true;
        }
      }
      return false;
    }
  }
}
