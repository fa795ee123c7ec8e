/**
In-flight safety: an index the kernel still has queued is never on a free stack. It rests on two things the driver
does not check: that the target of vaEndPicture is the surface vaBeginPicture bound, and that the dequeues of a wait
return the waiting surface's own indices, if these are queued.
*/
module ProtocolInFlight {
  import opened Options
  import opened Ownership
  import opened Protocol
  import opened ProtocolOwnership

  predicate Busy(s: State, a: int)
  {
    a in s.surfaces && s.surfaces[a].status == Rendering
  }

  /** Whoever holds a queued index is still rendering, or is gone. */
  ghost predicate Guarded(s: State, p: Pool)
  {
    forall i | i in p.queued ::
      i in p.owner && (p.owner[i] == Lost || (p.owner[i].Held? && Busy(s, p.owner[i].surface)))
  }

  ghost predicate InFlightInv(s: State)
  {
    && OwnershipInv(s)
    && forall r | Known(s, r) :: Guarded(s, At(s, r).output) && Guarded(s, At(s, r).capture)
  }

  /** The promise itself: no index the kernel has queued can be handed out. */
  ghost predicate QueuedIsTaken(s: State)
  {
    forall r, out, i | Known(s, r) && i in PoolOf(At(s, r), out).queued ::
      i < PoolOf(At(s, r), out).next && i !in PoolOf(At(s, r), out).free
  }

  lemma InFlightPromise(s: State)
    requires InFlightInv(s)
    ensures QueuedIsTaken(s)
  {
    forall r, out, i | Known(s, r) && i in PoolOf(At(s, r), out).queued
      ensures i < PoolOf(At(s, r), out).next && i !in PoolOf(At(s, r), out).free
    {
      assert Owned(s, r, true) && Owned(s, r, false);
    }
  }

  lemma GuardedElsewhere(s: State, s': State, r: Ref, a: int, r': Ref, out: bool)
    requires OnlyAt(s, s', r, a) && r' != r && Known(s, r') && Known(s', r')
    requires a in s.surfaces ==> s.surfaces[a].session in {Nobody, r}
    requires Owned(s, r', out) && Guarded(s, PoolOf(At(s, r'), out))
    ensures Guarded(s', PoolOf(At(s', r'), out))
  {
    hide PoolInv;
    var p := PoolOf(At(s, r'), out);
    assert Accounts(p, a, ShareOf(s, a, r', out));
  }

  lemma LocalGuarded(s: State, s': State, r: Ref, a: int)
    requires InFlightInv(s) && OwnershipInv(s') && OnlyAt(s, s', r, a) && Known(s, r) && Known(s', r)
    requires a in s.surfaces ==> s.surfaces[a].session in {Nobody, r}
    requires Guarded(s', At(s', r).output) && Guarded(s', At(s', r).capture)
    ensures InFlightInv(s')
  {
    hide Owned, Guarded;
    forall r' | Known(s', r')
      ensures Guarded(s', At(s', r').output) && Guarded(s', At(s', r').capture)
    {
      assert Known(s, r') && Owned(s, r', true) && Owned(s, r', false);
      if r' != r {
        GuardedElsewhere(s, s', r, a, r', true);
        GuardedElsewhere(s, s', r, a, r', false);
      }
    }
  }

  ghost predicate StillBusy(s: State, s': State)
  {
    forall b | Busy(s, b) :: Busy(s', b)
  }

  lemma GuardedKept(s: State, s': State, p: Pool, p': Pool)
    requires Guarded(s, p) && TakenKept(p, p') && p'.queued <= p.queued && StillBusy(s, s')
    ensures Guarded(s', p')
  {
  }

  /** Steps that hand out or give back only indices nothing is queued on, and let no surface stop rendering. */
  lemma QuietStep(s: State, s': State, r: Ref, a: int)
    requires InFlightInv(s) && OwnershipInv(s') && OnlyAt(s, s', r, a) && Known(s, r) && Known(s', r)
    requires a in s.surfaces ==> s.surfaces[a].session in {Nobody, r}
    requires TakenKept(At(s, r).output, At(s', r).output) && TakenKept(At(s, r).capture, At(s', r).capture)
    requires At(s', r).output.queued <= At(s, r).output.queued && At(s', r).capture.queued <= At(s, r).capture.queued
    requires StillBusy(s, s')
    ensures InFlightInv(s')
  {
    hide OwnershipInv, Guarded, TakenKept;
    GuardedKept(s, s', At(s, r).output, At(s', r).output);
    GuardedKept(s, s', At(s, r).capture, At(s', r).capture);
    LocalGuarded(s, s', r, a);
  }

  lemma StartSyncInFlight(s: State, a: int, queued: bool, rest: Rest)
    requires InFlightInv(s) && a in s.surfaces && a !in s.waiting && s.surfaces[a].status == Rendering
    requires rest.Beginning? ==> s.surfaces[a].session in {Nobody, Of(rest.context)}
    requires rest.Ending? ==> rest.context in s.contexts && s.surfaces[a].session in {Nobody, Of(rest.context)}
    ensures SurfaceFits(s, s.surfaces[a]) && InFlightInv(StartSync(s, a, queued, rest))
  {
    hide OwnershipInv, Guarded;
    StartSyncOwned(s, a, queued, rest);
    var r := if s.surfaces[a].session == Nobody then Probe else s.surfaces[a].session;
    var s' := StartSync(s, a, queued, rest);
    NoneTaken(At(s, r).output);
    NoneTaken(At(s, r).capture);
    QuietStep(s, s', r, a);
  }

  lemma SharesAccounted(s: State, r: Ref, a: int)
    requires OwnershipInv(s) && Known(s, r)
    ensures PoolInv(At(s, r).output) && Accounts(At(s, r).output, a, ShareOf(s, a, r, true))
    ensures PoolInv(At(s, r).capture) && Accounts(At(s, r).capture, a, ShareOf(s, a, r, false))
  {
    assert Owned(s, r, true) && Owned(s, r, false);
  }

  lemma OwnedFits(s: State, a: int)
    requires OwnershipInv(s) && a in s.surfaces
    ensures SurfaceFits(s, s.surfaces[a])
  {
  }

  lemma BindSourceInFlight(s: State, c: int, a: int, mapped: bool)
    requires InFlightInv(s) && c in s.contexts && a in s.surfaces && a !in s.waiting
    requires s.surfaces[a].session in {Nobody, Of(c)}
    ensures var x := BindSource(s.contexts[c].session, s.surfaces[a], Of(c), a, mapped);
      InFlightInv(PutSurface(Put(s, Of(c), x.session), a, x.surface))
  {
    hide BindSource, OwnershipInv, Guarded, TakenKept, PoolInv, Accounts;
    var t, u, r := s.contexts[c].session, s.surfaces[a], Of(c);
    var x := BindSource(t, u, r, a, mapped);
    SharesAccounted(s, r, a);
    BindSourceOwned(s, c, a, mapped);
    BindsStay(t, u, r, a, Binds(mapped, false, false));
    BindSourceKeepsTaken(t, u, r, a, mapped);
    OwnedFits(s, a);
    BindSourceHands(t, u, r, a, mapped);
    NoneTaken(t.capture);
    QuietStep(s, PutSurface(Put(s, r, x.session), a, x.surface), r, a);
  }

  lemma BindDestinationInFlight(s: State, r: Ref, a: int, binds: Binds)
    requires InFlightInv(s) && Known(s, r) && a in s.surfaces && a !in s.waiting
    requires s.surfaces[a].session in {Nobody, r}
    ensures var x := BindDestination(At(s, r), s.surfaces[a], r, a, binds.sized, binds.mappedDestination);
      InFlightInv(PutSurface(Put(s, r, x.session), a, x.surface))
  {
    hide BindDestination, OwnershipInv, Guarded, TakenKept, PoolInv, Accounts;
    var t, u := At(s, r), s.surfaces[a];
    var x := BindDestination(t, u, r, a, binds.sized, binds.mappedDestination);
    SharesAccounted(s, r, a);
    BindDestinationOwned(s, r, a, binds);
    BindsStay(t, u, r, a, binds);
    BindDestinationKeepsTaken(t, u, r, a, binds.sized, binds.mappedDestination);
    OwnedFits(s, a);
    BindDestinationHands(t, u, r, a, binds.sized, binds.mappedDestination);
    NoneTaken(t.output);
    QuietStep(s, PutSurface(Put(s, r, x.session), a, x.surface), r, a);
  }

  lemma MarkInFlight(s: State, c: int, a: int)
    requires InFlightInv(s) && c in s.contexts && a in s.surfaces && a !in s.waiting && s.surfaces[a].session == Of(c)
    ensures InFlightInv(Marked(s, c, a))
  {
    hide OwnershipInv, Guarded;
    MarkOwned(s, c, a);
    NoneTaken(At(s, Of(c)).output);
    NoneTaken(At(s, Of(c)).capture);
    QuietStep(s, Marked(s, c, a), Of(c), a);
  }

  lemma BindAndRenderInFlight(s: State, c: int, a: int, av1: bool, binds: Binds)
    requires InFlightInv(s) && c in s.contexts && a in s.surfaces && a !in s.waiting
    requires s.surfaces[a].session in {Nobody, Of(c)}
    ensures InFlightInv(BindAndRender(s, c, a, av1, binds))
  {
    hide BindSource, BindDestination, InFlightInv;
    var r := Of(c);
    var x := BindSource(s.contexts[c].session, s.surfaces[a], r, a, binds.mappedSource);
    var s1 := PutSurface(Put(s, r, x.session), a, x.surface);
    BindsStay(s.contexts[c].session, s.surfaces[a], r, a, binds);
    BindSourceInFlight(s, c, a, binds.mappedSource);
    if x.ok {
      if av1 {
        MarkInFlight(s1, c, a);
        Overwrite(s1, a, x.surface, x.surface.(status := Rendering));
      } else {
        var y := BindDestination(x.session, x.surface, r, a, binds.sized, binds.mappedDestination);
        var s2 := PutSurface(Put(s1, r, y.session), a, y.surface);
        BindDestinationInFlight(s1, r, a, binds);
        BindsStay(x.session, x.surface, r, a, binds);
        if y.ok {
          MarkInFlight(s2, c, a);
        }
      }
    }
  }

  /** Indices of a surface that is not rendering may be taken back: nothing is queued on them. */
  lemma NotRenderingNotQueued(s: State, r: Ref, a: int, out: bool)
    requires InFlightInv(s) && Known(s, r) && a in s.surfaces && s.surfaces[a].status != Rendering
    ensures var o := ShareOf(s, a, r, out); o.Some? ==> o.value !in PoolOf(At(s, r), out).queued
  {
  }

  ghost predicate NoneQueuedOf(p: Pool, a: int)
  {
    forall i | i in p.queued && i in p.owner :: p.owner[i] != Held(a)
  }

  lemma GiveGuarded(s: State, s': State, p: Pool, o: Option<nat>, a: int)
    requires Guarded(s, p) && (o.Some? ==> o.value !in p.queued)
    requires forall b | Busy(s, b) && b != a :: Busy(s', b)
    requires NoneQueuedOf(p, a)
    ensures Guarded(s', GiveBack(p, o))
  {
  }

  /** Losing an index settles it, queued or not. */
  lemma LoseGuarded(s: State, s': State, p: Pool, o: Option<nat>, a: int)
    requires Guarded(s, p) && Accounts(p, a, o)
    requires forall b | Busy(s, b) && b != a :: Busy(s', b)
    ensures Guarded(s', Lose(p, o))
  {
  }

  lemma RecycleInFlight(s: State, a: int)
    requires InFlightInv(s) && a in s.surfaces && a !in s.waiting
    ensures SurfaceFits(s, s.surfaces[a])
    ensures s.surfaces[a].status != Rendering || s.surfaces[a].session == Nobody ==> InFlightInv(Recycle(s, a))
  {
    hide Owned, Guarded, GiveBack, NoneQueuedOf, OwnershipInv;
    var u := s.surfaces[a];
    RecycleOwned(s, a);
    var r := if u.session == Nobody then Probe else u.session;
    var t, s' := At(s, r), Recycle(s, a);
    if u.session == Nobody {
      GuardedWithout(s, s', r, a, true);
      GuardedWithout(s, s', r, a, false);
      LocalGuarded(s, s', r, a);
    } else if u.status != Rendering {
      NotRenderingNotQueued(s, r, a, true);
      NotRenderingNotQueued(s, r, a, false);
      HeldNotQueued(s, r, a, true);
      HeldNotQueued(s, r, a, false);
      GiveGuarded(s, s', t.output, u.source, a);
      GiveGuarded(s, s', t.capture, u.destination, a);
      LocalGuarded(s, s', r, a);
    }
  }

  lemma HeldNotQueued(s: State, r: Ref, a: int, out: bool)
    requires InFlightInv(s) && Known(s, r) && a in s.surfaces
    requires s.surfaces[a].status != Rendering || s.surfaces[a].session != r
    ensures NoneQueuedOf(PoolOf(At(s, r), out), a)
  {
    hide PoolInv;
    assert Owned(s, r, true) && Owned(s, r, false);
    assert Accounts(PoolOf(At(s, r), out), a, ShareOf(s, a, r, out));
  }

  lemma GuardedWithout(s: State, s': State, r: Ref, a: int, out: bool)
    requires InFlightInv(s) && Known(s, r) && a in s.surfaces && s.surfaces[a].session != r
    requires forall b | Busy(s, b) && b != a :: Busy(s', b)
    ensures Guarded(s', PoolOf(At(s, r), out))
  {
    HeldNotQueued(s, r, a, out);
  }

  lemma StrandInFlight(s: State, a: int)
    requires InFlightInv(s) && a in s.surfaces && a !in s.waiting
    ensures SurfaceFits(s, s.surfaces[a]) && InFlightInv(Strand(s, a))
  {
    hide Guarded, Lose, OwnershipInv, Accounts;
    var u := s.surfaces[a];
    StrandOwned(s, a);
    var r := if u.session == Nobody then Probe else u.session;
    var t, s' := At(s, r), Strand(s, a);
    if u.session == Nobody {
      GuardedWithout(s, s', r, a, true);
      GuardedWithout(s, s', r, a, false);
    } else {
      SharesAccounted(s, r, a);
      LoseGuarded(s, s', t.output, u.source, a);
      LoseGuarded(s, s', t.capture, u.destination, a);
    }
    LocalGuarded(s, s', r, a);
  }

  /** release_source_buffer on a surface whose decode completed. */
  lemma ReleaseInFlight(s: State, c: int, a: int)
    requires InFlightInv(s) && c in s.contexts && a in s.surfaces && a !in s.waiting
    requires s.surfaces[a].session in {Nobody, Of(c)} && s.surfaces[a].status != Rendering
    ensures InFlightInv(Release(s, c, a))
  {
    hide Owned, Guarded, GiveBack, NoneQueuedOf;
    var u, r := s.surfaces[a], Of(c);
    assert SurfaceFits(s, u);
    var t, s' := s.contexts[c].session, Release(s, c, a);
    ReleaseOwned(s, c, a);
    NotRenderingNotQueued(s, r, a, true);
    HeldNotQueued(s, r, a, true);
    GiveGuarded(s, s', t.output, u.source, a);
    NoneTaken(t.capture);
    GuardedKept(s, s', t.capture, t.capture);
    LocalGuarded(s, s', r, a);
  }

  predicate OwnReturned(queued: set<nat>, own: Option<nat>, i: nat)
  {
    own.Some? && own.value in queued ==> i == own.value
  }

  /** A wait that completed has dequeued the surface's own indices, as far as they were queued. */
  predicate ReturnsOwn(t: Session, u: Surface, reply: Reply)
  {
    reply.Completed? ==>
      && OwnReturned(t.output.queued, u.source, reply.output)
      && OwnReturned(t.capture.queued, u.destination, reply.capture)
  }

  predicate OnlyOwn(queued: set<nat>, own: Option<nat>)
  {
    own.Some? && own.value in queued ==> queued == {own.value}
  }

  /** Known before the dequeues: if the surface's indices are queued, nothing else is in their queues. */
  ghost predicate Unmixed(s: State, a: int)
    requires a in s.waiting && WaitFits(s, a)
  {
    var t, u := At(s, s.waiting[a].from), s.surfaces[a];
    OnlyOwn(t.output.queued, u.source) && OnlyOwn(t.capture.queued, u.destination)
  }

  lemma FinishInFlight(s: State, a: int, reply: Reply)
    requires InFlightInv(s) && Legal(s, Resume(a, reply, Binds(false, false, false)))
    requires a in s.surfaces && ReturnsOwn(At(s, s.waiting[a].from), s.surfaces[a], reply)
    ensures WaitFits(s, a) && InFlightInv(Arrive(FinishSync(s, a, s.waiting[a].from, reply), a))
  {
    hide Guarded, Accounts, Owned;
    FinishOwned(s, a, reply);
    assert WaitFits(s, a) && SurfaceFits(s, s.surfaces[a]);
    var from, u := s.waiting[a].from, s.surfaces[a];
    var s' := Arrive(FinishSync(s, a, from, reply), a);
    if reply.Completed? {
      var p, q := At(s, from).output, At(s, from).capture;
      SharesAccounted(s, from, a);
      DequeueGuarded(s, s', p, u.source, a, reply.output);
      DequeueGuarded(s, s', q, u.destination, a, reply.capture);
      LocalGuarded(s, s', from, a);
    } else {
      var r := if from == Probe then (if u.session == Nobody then Probe else u.session) else from;
      NoneTaken(At(s, r).output);
      NoneTaken(At(s, r).capture);
      QuietStep(s, s', r, a);
    }
  }

  lemma DequeueGuarded(s: State, s': State, p: Pool, o: Option<nat>, a: int, i: nat)
    requires Guarded(s, p) && Accounts(p, a, o) && OwnReturned(p.queued, o, i)
    requires forall b | Busy(s, b) && b != a :: Busy(s', b)
    ensures Guarded(s', p.(queued := p.queued - {i}))
  {
  }

  lemma ResumeInFlight(s: State, a: int, reply: Reply, binds: Binds)
    requires InFlightInv(s) && Legal(s, Resume(a, reply, binds))
    requires a in s.surfaces && ReturnsOwn(At(s, s.waiting[a].from), s.surfaces[a], reply)
    ensures InFlightInv(ResumeStep(s, a, reply, binds))
  {
    hide Owned, Guarded, Recycle, Strand, BindAndRender, Release;
    assert WaitFits(s, a) && SurfaceFits(s, s.surfaces[a]);
    FinishFits(s, a, reply);
    FinishInFlight(s, a, reply);
    assert reply.Completed? ==> s.waiting[a].from.Of?;
    var s1 := Arrive(FinishSync(s, a, s.waiting[a].from, reply), a);
    match s.waiting[a].rest
    case Syncing =>
    case Destroying =>
      RecycleInFlight(s1, a);
      StrandInFlight(s1, a);
    case Beginning(c, av1) => BindAndRenderInFlight(s1, c, a, av1, binds);
    case Ending(c) =>
      if reply.Completed? {
        ReleaseInFlight(s1, c, a);
      }
  }

  // ----- vaEndPicture

  /** The render target is this context's, or nobody's, and still rendering: the driver does not check it. */
  predicate TargetIsRendering(s: State, c: int)
    requires c in s.contexts
  {
    var x := s.contexts[c].render;
    x.Some? && x.value in s.surfaces ==>
      s.surfaces[x.value].session in {Nobody, Of(c)} && s.surfaces[x.value].status == Rendering
  }

  lemma QueueGuarded(s: State, s': State, p: Pool, o: Option<nat>, a: int)
    requires Guarded(s, p) && Accounts(p, a, o) && o.Some? && Busy(s', a) && StillBusy(s, s')
    ensures Guarded(s', p.(queued := p.queued + {o.value}))
  {
  }

  lemma QueueBothInFlight(s: State, c: int, a: int, submit: Submit)
    requires InFlightInv(s) && c in s.contexts && a in s.surfaces && a !in s.waiting
    requires s.surfaces[a].session == Of(c) && s.surfaces[a].status == Rendering
    ensures var t := s.contexts[c].session;
      InFlightInv(Put(s, Of(c), QueueBoth(t.(streaming := true), s.surfaces[a], submit).0))
  {
    hide PoolInv, Guarded;
    var r, t, u := Of(c), s.contexts[c].session, s.surfaces[a];
    var t' := QueueBoth(t.(streaming := true), u, submit).0;
    var s' := Put(s, r, t');
    SessionOwned(s, c, a, t');
    SharesAccounted(s, r, a);
    NoneTaken(t.output);
    NoneTaken(t.capture);
    GuardedKept(s, s', t.output, t.output);
    GuardedKept(s, s', t.capture, t.capture);
    if u.destination.Some? {
      QueueGuarded(s, s', t.capture, u.destination, a);
    }
    if u.source.Some? {
      QueueGuarded(s, s', t.output, u.source, a);
    }
    LocalGuarded(s, s', r, a);
  }

  lemma SubmitInFlight(s: State, c: int, a: int, submit: Submit)
    requires InFlightInv(s) && c in s.contexts && a in s.surfaces && a !in s.waiting
    requires s.surfaces[a].session == Of(c) && s.surfaces[a].status == Rendering
    ensures InFlightInv(SubmitStep(s, c, a, submit))
  {
    hide InFlightInv, StartSync, QueueBoth;
    var t := s.contexts[c].session;
    StreamInFlight(s, c, a);
    QueueBothInFlight(s, c, a, submit);
    var s' := Put(s, Of(c), QueueBoth(t.(streaming := true), s.surfaces[a], submit).0);
    StartSyncInFlight(s', a, submit.queuedRequest, Ending(c));
  }

  lemma StreamInFlight(s: State, c: int, a: int)
    requires InFlightInv(s) && c in s.contexts && a in s.surfaces && a !in s.waiting && s.surfaces[a].session == Of(c)
    ensures InFlightInv(Put(s, Of(c), s.contexts[c].session.(streaming := true)))
  {
    hide OwnershipInv, Guarded;
    var t := s.contexts[c].session;
    SessionOwned(s, c, a, t.(streaming := true));
    NoneTaken(t.output);
    NoneTaken(t.capture);
    QuietStep(s, Put(s, Of(c), t.(streaming := true)), Of(c), a);
  }

  lemma RequestInFlight(s: State, r: Ref, a: int)
    requires InFlightInv(s) && Known(s, r) && a in s.surfaces && a !in s.waiting && s.surfaces[a].session in {Nobody, r}
    ensures InFlightInv(PutSurface(s, a, s.surfaces[a].(request := true)))
  {
    hide OwnershipInv, Guarded;
    RequestOwned(s, r, a);
    NoneTaken(At(s, r).output);
    NoneTaken(At(s, r).capture);
    QuietStep(s, PutSurface(s, a, s.surfaces[a].(request := true)), r, a);
  }

  lemma EndInFlight(s: State, c: int, binds: Binds, submit: Submit)
    requires InFlightInv(s) && Legal(s, EndPicture(c, binds, submit)) && TargetIsRendering(s, c)
    ensures InFlightInv(EndStep(s, c, binds, submit))
  {
    hide OwnershipInv, Guarded, SubmitStep, BindDestination;
    var x := s.contexts[c];
    if x.render.Some? && x.render.value in s.surfaces && x.session.format {
      var a := x.render.value;
      var u := s.surfaces[a];
      BindDestinationInFlight(s, Of(c), a, binds);
      BindsStay(x.session, u, Of(c), a, binds);
      var y := if u.destination == None
               then BindDestination(x.session, u, Of(c), a, binds.sized, binds.mappedDestination)
               else Bound(x.session, u, true);
      var s1 := PutSurface(Put(s, Of(c), y.session), a, y.surface);
      assert u.destination != None ==> s1 == s;
      OwnedFits(s, a);
      if y.ok {
        RequestInFlight(s1, Of(c), a);
        SubmitInFlight(PutSurface(s1, a, y.surface.(request := true)), c, a, submit);
      }
    }
  }

  // ----- the other steps

  lemma AdoptInFlight(s: State, c: int, matches: bool)
    requires InFlightInv(s) && c in s.contexts && MayAdopt(s, c, matches)
    ensures InFlightInv(Adopt(s, c))
  {
    hide Owned, PoolInv;
    AdoptOwned(s, c, matches);
    var s' := Adopt(s, c);
    assert Known(s, Probe);
    forall r | Known(s', r)
      ensures Guarded(s', At(s', r).output) && Guarded(s', At(s', r).capture)
    {
      assert Known(s, r);
    }
  }

  lemma BeginInFlight(s: State, c: int, a: int, av1: bool, matches: bool, queued: bool, binds: Binds)
    requires InFlightInv(s) && c in s.contexts && a in s.surfaces && a !in s.waiting
    ensures SurfaceFits(s, s.surfaces[a]) && InFlightInv(BeginStep(s, c, a, av1, matches, queued, binds))
  {
    hide Owned, Guarded, BindAndRender, StartSync, WaitFits;
    assert SurfaceFits(s, s.surfaces[a]);
    var r := s.surfaces[a].session;
    if r == Nobody || r == Of(c) || (r == Probe && MayAdopt(s, c, matches)) {
      var s1 := if r == Probe then Adopt(s, c) else s;
      if r == Probe {
        AdoptInFlight(s, c, matches);
      }
      if s1.surfaces[a].status == Rendering {
        StartSyncInFlight(s1, a, queued, Beginning(c, av1));
      } else {
        BindAndRenderInFlight(s1, c, a, av1, binds);
      }
    }
  }

  lemma ExportInFlight(s: State, a: int, via: Ref, binds: Binds)
    requires InFlightInv(s) && a in s.surfaces && a !in s.waiting && Known(s, via)
    ensures SurfaceFits(s, s.surfaces[a]) && InFlightInv(ExportStep(s, a, via, binds))
  {
    hide Owned, Guarded, BindDestination;
    assert SurfaceFits(s, s.surfaces[a]);
    BindDestinationInFlight(s, if s.surfaces[a].session == Nobody then via else s.surfaces[a].session, a, binds);
  }

  lemma DestroyInFlight(s: State, a: int, queued: bool)
    requires InFlightInv(s) && a in s.surfaces && a !in s.waiting
    ensures SurfaceFits(s, s.surfaces[a]) && InFlightInv(DestroyStep(s, a, queued))
  {
    hide Owned, Guarded, Recycle, Strand;
    assert SurfaceFits(s, s.surfaces[a]);
    RecycleInFlight(s, a);
    if s.surfaces[a].session != Nobody && s.surfaces[a].status == Rendering {
      StartSyncInFlight(s, a, queued, Destroying);
      if !SyncWaits(s, a, queued) {
        StrandInFlight(StartSync(s, a, queued, Destroying), a);
      }
    }
  }

  lemma OtherInFlight(s: State, e: Event)
    requires InFlightInv(s) && Legal(s, e)
    requires e.CreateSurface? || e.OpenProbe? || e.CreateContext? || e.SwitchBitDepth? || e.DestroyContext?
    ensures InFlightInv(Step(s, e))
  {
    hide PoolInv;
    StepOwned(s, e);
    var s' := Step(s, e);
    forall r | Known(s', r)
      ensures Guarded(s', At(s', r).output) && Guarded(s', At(s', r).capture)
    {
      if Known(s, r) {
        assert Owned(s, r, true) && Owned(s, r, false);
      }
    }
  }

  /** What the driver leaves to its caller and to the kernel. */
  ghost predicate Careful(s: State, e: Event)
    requires NoDangling(s) && Legal(s, e)
  {
    && (e.EndPicture? ==> TargetIsRendering(s, e.c))
    && (e.Resume? ==> WaitFits(s, e.a) && ReturnsOwn(At(s, s.waiting[e.a].from), s.surfaces[e.a], e.reply))
  }

  lemma StepInFlight(s: State, e: Event)
    requires InFlightInv(s) && Legal(s, e) && Careful(s, e)
    ensures InFlightInv(Step(s, e))
  {
    hide ExportStep, BeginStep, EndStep, DestroyStep, ResumeStep, StartSync, Owned, Guarded;
    match e
    case Export(a, via, binds) => ExportInFlight(s, a, via, binds);
    case BeginPicture(c, a, av1, matches, queued, binds) => BeginInFlight(s, c, a, av1, matches, queued, binds);
    case EndPicture(c, binds, submit) => EndInFlight(s, c, binds, submit);
    case SyncSurface(a, queued) =>
      if s.surfaces[a].status == Rendering {
        StartSyncInFlight(s, a, queued, Syncing);
      }
    case DestroySurface(a, queued) => DestroyInFlight(s, a, queued);
    case Resume(a, reply, binds) => ResumeInFlight(s, a, reply, binds);
    case _ => OtherInFlight(s, e);
  }

  ghost predicate CarefulRun(s: State, es: seq<Event>, s': State)
    requires NoDangling(s)
    decreases |es|
  {
    if es == [] then s' == s
    else Legal(s, es[0]) && Careful(s, es[0]) && (StepFits(s, es[0]); CarefulRun(Step(s, es[0]), es[1..], s'))
  }

  lemma {:induction false} RunsKeepInFlight(s: State, es: seq<Event>, s': State)
    requires InFlightInv(s) && CarefulRun(s, es, s')
    ensures InFlightInv(s')
    decreases |es|
  {
    if es != [] {
      StepFits(s, es[0]);
      StepInFlight(s, es[0]);
      RunsKeepInFlight(Step(s, es[0]), es[1..], s');
    }
  }

  /**
  The main result: after any such run, whatever failed on the way and whatever ran while a call waited, no index
  the kernel has queued can be handed out again.
  */
  lemma QueuedIsNeverFree(es: seq<Event>, s: State)
    requires NoDangling(START) && CarefulRun(START, es, s)
    ensures QueuedIsTaken(s)
  {
    StartOwned();
    assert InFlightInv(START);
    RunsKeepInFlight(START, es, s);
    InFlightPromise(s);
  }
}
