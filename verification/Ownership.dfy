/**
Who holds which V4L2 buffer index: the two index pools of a decode session (session.h), the surfaces that borrow
from them (picture.c, surface.c), and the kernel's queues. One value of `Session` stands for the struct together
with the file handle it names, so what the kernel has queued moves with it.
*/
module Ownership {

  import opened Options

  const MAX_BUFFERS: nat := 64

  /** The session a surface points to: none, the driver's probe session, or the one inside a context. */
  datatype Ref = Nobody | Probe | Of(context: int)

  /** A lost index is one whose surface was destroyed while its request could still be in flight. */
  datatype Owner = Free | Held(surface: int) | Lost

  /**
  One queue's pool. `granted`, `next` and `free` are the fields of the struct. `queued` is the kernel's, and
  `owner` is bookkeeping of the model: the driver never reads either.
  */
  datatype Pool = Pool(granted: nat, next: nat, free: seq<nat>, queued: set<nat>, owner: map<nat, Owner>)

  const EMPTY_POOL := Pool(0, 0, [], {}, map[])

  datatype Session = Session(format: bool, streaming: bool, output: Pool, capture: Pool)

  const CLOSED := Session(false, false, EMPTY_POOL, EMPTY_POOL)

  datatype Status = Ready | Rendering | Displaying

  datatype Surface = Surface(status: Status, source: Option<nat>, destination: Option<nat>, session: Ref, request: bool)

  const NEW_SURFACE := Surface(Ready, None, None, Nobody, false)

  /** A pool as REQBUFS leaves it. */
  function Granted(n: nat): Pool
  {
    EMPTY_POOL.(granted := n)
  }

  predicate Exhausted(p: Pool)
  {
    p.free == [] && p.next >= p.granted
  }

  function TakenIndex(p: Pool): nat
  {
    if p.free != [] then p.free[|p.free| - 1] else p.next
  }

  /** Pop the stack of recycled indices, or else advance the high-water counter. */
  function Take(p: Pool, a: int): (r: Pool)
    ensures r.queued == p.queued && r.granted == p.granted
  {
    var q := if p.free != [] then p.(free := p.free[..|p.free| - 1]) else p.(next := p.next + 1);
    q.(owner := p.owner[TakenIndex(p) := Held(a)])
  }

  /** Push an index; a full stack would drop it. */
  function Give(p: Pool, i: nat): (r: Pool)
    ensures r.queued == p.queued && r.granted == p.granted
  {
    if |p.free| < MAX_BUFFERS then p.(free := p.free + [i], owner := p.owner[i := Free])
    else p.(owner := p.owner[i := Lost])
  }

  function GiveBack(p: Pool, i: Option<nat>): (r: Pool)
    ensures r.queued == p.queued && r.granted == p.granted
  {
    if i.Some? then Give(p, i.value) else p
  }

  function Lose(p: Pool, i: Option<nat>): (r: Pool)
    ensures r.queued == p.queued && r.granted == p.granted
  {
    if i.Some? then p.(owner := p.owner[i.value := Lost]) else p
  }

  datatype Bound = Bound(session: Session, surface: Surface, ok: bool)

  /** bind_source_buffer; `mapped` is whether the buffer could be queried and mapped. */
  function BindSource(t: Session, u: Surface, r: Ref, a: int, mapped: bool): Bound
  {
    if u.source.Some? then Bound(t, u, u.session == r)
    else if u.session != Nobody && u.session != r then Bound(t, u, false)
    else if Exhausted(t.output) then Bound(t, u, false)
    else
      var i, p := TakenIndex(t.output), Take(t.output, a);
      if mapped then Bound(t.(output := p), u.(source := Some(i), session := r), true)
      else Bound(t.(output := Give(p, i)), u.(session := r), false)
  }

  /** request_bind_destination_buffer; `sized` is whether the format could be read, `mapped` everything after. */
  function BindDestination(t: Session, u: Surface, r: Ref, a: int, sized: bool, mapped: bool): (b: Bound)
    ensures b.surface.session == u.session || b.surface.session == r
  {
    if !t.format then Bound(t, u, false)
    else if u.destination.Some? then Bound(t, u, u.session == r)
    else if u.session != Nobody && u.session != r then Bound(t, u, false)
    else if Exhausted(t.capture) then Bound(t, u, false)
    else if !sized then Bound(t, u, false)
    else
      var i, p := TakenIndex(t.capture), Take(t.capture, a);
      if mapped then Bound(t.(capture := p), u.(destination := Some(i), session := r), true)
      else Bound(t.(capture := Give(p, i)), u, false)
  }

  /** release_source_buffer. */
  function ReleaseSource(t: Session, u: Surface): (Session, Surface)
  {
    (t.(output := GiveBack(t.output, u.source)), u.(source := None))
  }

  // ----- what a pool and its borrowers keep

  ghost predicate Distinct(s: seq<nat>)
  {
    forall i, j :: 0 <= i < j < |s| ==> s[i] != s[j]
  }

  /** The pool by itself: every index below the high-water mark has one owner, and the stack has the free ones. */
  ghost predicate PoolInv(p: Pool)
  {
    && p.next <= p.granted <= MAX_BUFFERS
    && Distinct(p.free)
    && (forall i: nat :: i in p.owner <==> i < p.next)
    && (forall i: nat :: i in p.free <==> i in p.owner && p.owner[i] == Free)
  }

  lemma {:induction false} DistinctBelow(s: seq<nat>, n: nat)
    requires Distinct(s) && forall i :: i in s ==> i < n
    ensures |s| <= n
    decreases n
  {
    if s != [] {
      if n - 1 in s {
        var k :| 0 <= k < |s| && s[k] == n - 1;
        var rest := s[..k] + s[k + 1..];
        forall i | i in rest
          ensures i < n - 1
        {
          var m :| 0 <= m < |rest| && rest[m] == i;
          var m' := if m < k then m else m + 1;
          assert i == s[m'] && m' != k && s[m'] in s;
          assert s[m'] != s[k];
        }
        DistinctBelow(rest, n - 1);
      } else {
        assert s[0] in s;
        DistinctBelow(s, n - 1);
      }
    }
  }

  lemma StackNeverFull(p: Pool, i: nat)
    requires PoolInv(p) && i in p.owner && p.owner[i] != Free
    ensures |p.free| < MAX_BUFFERS
  {
    assert i !in p.free;
    var s := p.free + [i];
    assert Distinct(s);
    DistinctBelow(s, p.next);
  }

  /** Taking changes the owner of one index that was free or new. */
  lemma TakeKeeps(p: Pool, a: int)
    requires PoolInv(p) && !Exhausted(p)
    ensures PoolInv(Take(p, a))
    ensures var i := TakenIndex(p);
      && (i in p.owner ==> p.owner[i] == Free)
      && Take(p, a).owner == p.owner[i := Held(a)]
      && Take(p, a).next > 0 && Take(p, a).next >= p.next
  {
  }

  /** Giving back changes the owner of one index that was not free, and is never refused. */
  lemma GiveKeeps(p: Pool, i: nat)
    requires PoolInv(p) && i in p.owner && p.owner[i] != Free
    ensures PoolInv(Give(p, i)) && Give(p, i).owner == p.owner[i := Free]
    ensures Give(p, i).free == p.free + [i] && Give(p, i).next == p.next
  {
    StackNeverFull(p, i);
    assert i !in p.free;
    forall j: nat
      ensures j in Give(p, i).free <==> j in p.free || j == i
    {
    }
  }

  /** The pool lists exactly this index, or none, as held by surface a. */
  ghost predicate Accounts(p: Pool, a: int, o: Option<nat>)
  {
    forall i: nat :: (i in p.owner && p.owner[i] == Held(a)) <==> o == Some(i)
  }

  ghost predicate OthersKept(p: Pool, p': Pool, a: int)
  {
    forall i: nat, b: int :: b != a ==>
      ((i in p.owner && p.owner[i] == Held(b)) <==> (i in p'.owner && p'.owner[i] == Held(b)))
  }

  /** A change of pool that concerns surface a alone: from holding o to holding o'. */
  ghost predicate Hands(p: Pool, p': Pool, a: int, o: Option<nat>, o': Option<nat>)
  {
    PoolInv(p) && Accounts(p, a, o) ==>
      PoolInv(p') && Accounts(p', a, o') && OthersKept(p, p', a) && p'.next >= p.next
  }

  lemma TakeHands(p: Pool, a: int)
    requires !Exhausted(p)
    ensures Hands(p, Take(p, a), a, None, Some(TakenIndex(p)))
    ensures PoolInv(p) ==> Take(p, a).next > 0
  {
    if PoolInv(p) && Accounts(p, a, None) {
      TakeKeeps(p, a);
    } else if PoolInv(p) {
      TakeKeeps(p, a);
    }
  }

  lemma GiveHands(p: Pool, a: int, o: Option<nat>)
    ensures Hands(p, GiveBack(p, o), a, o, None)
  {
  }

  lemma LoseHands(p: Pool, a: int, o: Option<nat>)
    ensures Hands(p, Lose(p, o), a, o, None)
  {
  }

  lemma SameHands(p: Pool, a: int, o: Option<nat>)
    ensures Hands(p, p, a, o, o)
  {
  }

  /** An index that is taken and given straight back has changed hands not at all. */
  lemma TakeGiveHands(p: Pool, a: int)
    requires !Exhausted(p)
    ensures Hands(p, Give(Take(p, a), TakenIndex(p)), a, None, None)
    ensures PoolInv(p) && Accounts(p, a, None) ==> Give(Take(p, a), TakenIndex(p)).next > 0
  {
    hide PoolInv, Take, Give;
    TakeHands(p, a);
    if PoolInv(p) && Accounts(p, a, None) {
      var q, i := Take(p, a), TakenIndex(p);
      GiveHands(q, a, Some(i));
      assert GiveBack(q, Some(i)) == Give(q, i);
    }
  }

  function Share(u: Surface, r: Ref, out: bool): Option<nat>
  {
    if u.session != r then None else if out then u.source else u.destination
  }

  lemma BindSourceHands(t: Session, u: Surface, r: Ref, a: int, mapped: bool)
    requires u.session == Nobody ==> u.source == None && u.destination == None
    requires r != Nobody
    ensures var x := BindSource(t, u, r, a, mapped);
      && Hands(t.output, x.session.output, a, Share(u, r, true), Share(x.surface, r, true))
      && x.session.capture == t.capture && Share(x.surface, r, false) == Share(u, r, false)
      && (PoolInv(t.output) && Accounts(t.output, a, Share(u, r, true)) && u.session != r && x.surface.session == r ==>
           x.session.output.next > 0)
  {
    hide Hands, PoolInv, Accounts, Take, Give;
    SameHands(t.output, a, Share(u, r, true));
    if u.source == None && u.session in {Nobody, r} && !Exhausted(t.output) {
      TakeHands(t.output, a);
      TakeGiveHands(t.output, a);
    }
  }

  lemma BindDestinationHands(t: Session, u: Surface, r: Ref, a: int, sized: bool, mapped: bool)
    requires u.session == Nobody ==> u.source == None && u.destination == None
    requires r != Nobody
    ensures var x := BindDestination(t, u, r, a, sized, mapped);
      && Hands(t.capture, x.session.capture, a, Share(u, r, false), Share(x.surface, r, false))
      && x.session.output == t.output && Share(x.surface, r, true) == Share(u, r, true)
      && (PoolInv(t.capture) && u.session != r && x.surface.session == r ==> x.session.capture.next > 0)
  {
    hide Hands, PoolInv, Accounts, Take, Give;
    SameHands(t.capture, a, Share(u, r, false));
    if t.format && u.destination == None && u.session in {Nobody, r} && !Exhausted(t.capture) && sized {
      TakeHands(t.capture, a);
      TakeGiveHands(t.capture, a);
    }
  }

  /** No index changes hands but free ones. */
  ghost predicate TakenKept(p: Pool, p': Pool)
  {
    forall i | i in p.owner && p.owner[i] != Free :: i in p'.owner && p'.owner[i] == p.owner[i]
  }

  /** What a bind does to its pool when the buffer cannot be mapped: the index comes straight back. */
  lemma TakenAndGivenKept(p: Pool, a: int)
    requires PoolInv(p) && !Exhausted(p)
    ensures TakenKept(p, Take(p, a)) && TakenKept(p, Give(Take(p, a), TakenIndex(p)))
  {
    hide PoolInv, Take, Give;
    TakeKeeps(p, a);
    GiveChangesOne(Take(p, a), TakenIndex(p));
  }

  lemma BindSourceKeepsTaken(t: Session, u: Surface, r: Ref, a: int, mapped: bool)
    requires PoolInv(t.output)
    ensures TakenKept(t.output, BindSource(t, u, r, a, mapped).session.output)
  {
    hide PoolInv, Take, Give, TakenKept;
    NoneTaken(t.output);
    if !Exhausted(t.output) {
      TakenAndGivenKept(t.output, a);
    }
  }

  lemma BindDestinationKeepsTaken(t: Session, u: Surface, r: Ref, a: int, sized: bool, mapped: bool)
    requires PoolInv(t.capture)
    ensures TakenKept(t.capture, BindDestination(t, u, r, a, sized, mapped).session.capture)
  {
    hide PoolInv, Take, Give, TakenKept;
    NoneTaken(t.capture);
    if !Exhausted(t.capture) {
      TakenAndGivenKept(t.capture, a);
    }
  }

  lemma NoneTaken(p: Pool)
    ensures TakenKept(p, p)
  {
  }

  lemma GiveChangesOne(p: Pool, i: nat)
    ensures forall j | j in p.owner && j != i :: j in Give(p, i).owner && Give(p, i).owner[j] == p.owner[j]
  {
  }
}
