/**
Ownership over whole runs: in every reachable state, each index below a pool's high-water mark is on the free stack,
or held by one live surface of that session, or lost with a surface that could not be waited for.
*/
module ProtocolOwnership {
  import opened Options
  import opened Ownership
  import opened Protocol

  function ShareOf(s: State, a: int, r: Ref, out: bool): Option<nat>
  {
    if a in s.surfaces then Share(s.surfaces[a], r, out) else None
  }

  ghost predicate Owned(s: State, r: Ref, out: bool)
    requires Known(s, r)
  {
    var p := PoolOf(At(s, r), out);
    PoolInv(p) && forall a: int :: Accounts(p, a, ShareOf(s, a, r, out))
  }

  /** A session some surface points to has handed out an index. */
  ghost predicate Used(t: Session)
  {
    t.output.next > 0 || t.capture.next > 0
  }

  ghost predicate OwnershipInv(s: State)
  {
    && NoDangling(s)
    && (forall r | Known(s, r) :: Owned(s, r, true) && Owned(s, r, false))
    && (forall a | a in s.surfaces :: s.surfaces[a].session != Nobody ==> Used(At(s, s.surfaces[a].session)))
    && (forall a | a in s.waiting :: s.waiting[a].rest.Ending? ==>
         a in s.surfaces && s.surfaces[a].session == Of(s.waiting[a].rest.context))
  }

  /** What has to hold at the one surface and the one session a step is about. */
  ghost predicate HandsAt(s: State, s': State, r: Ref, a: int, out: bool)
    requires Known(s, r) && Known(s', r)
  {
    Hands(PoolOf(At(s, r), out), PoolOf(At(s', r), out), a, ShareOf(s, a, r, out), ShareOf(s', a, r, out))
  }

  lemma OwnedHere(s: State, s': State, r: Ref, a: int, out: bool)
    requires OnlyAt(s, s', r, a) && Known(s, r) && Known(s', r)
    requires Owned(s, r, out) && HandsAt(s, s', r, a, out)
    ensures Owned(s', r, out)
    ensures PoolOf(At(s', r), out).next >= PoolOf(At(s, r), out).next
  {
    hide PoolInv;
    var p, p' := PoolOf(At(s, r), out), PoolOf(At(s', r), out);
    assert Accounts(p, a, ShareOf(s, a, r, out));
    forall b: int
      ensures Accounts(p', b, ShareOf(s', b, r, out))
    {
      assert Accounts(p, b, ShareOf(s, b, r, out));
    }
  }

  lemma OwnedThere(s: State, s': State, r: Ref, a: int, r': Ref, out: bool)
    requires OnlyAt(s, s', r, a) && r' != r && Known(s, r') && Known(s', r')
    requires a in s.surfaces ==> s.surfaces[a].session in {Nobody, r}
    requires a in s'.surfaces ==> s'.surfaces[a].session in {Nobody, r}
    requires Owned(s, r', out)
    ensures At(s', r') == At(s, r') && Owned(s', r', out)
  {
    hide PoolInv;
    var p := PoolOf(At(s, r'), out);
    forall b: int
      ensures Accounts(p, b, ShareOf(s', b, r', out))
    {
      assert Accounts(p, b, ShareOf(s, b, r', out));
    }
  }

  lemma LocalOwned(s: State, s': State, r: Ref, a: int)
    requires OwnershipInv(s) && NoDangling(s') && OnlyAt(s, s', r, a) && Known(s, r) && Known(s', r)
    requires a in s.surfaces ==> s.surfaces[a].session in {Nobody, r}
    requires a in s'.surfaces ==> s'.surfaces[a].session in {Nobody, r}
    requires HandsAt(s, s', r, a, true) && HandsAt(s, s', r, a, false)
    requires a in s'.surfaces && s'.surfaces[a].session == r && !(a in s.surfaces && s.surfaces[a].session == r) ==>
      Used(At(s', r))
    requires a in s'.waiting && s'.waiting[a].rest.Ending? ==>
      a in s'.surfaces && s'.surfaces[a].session == Of(s'.waiting[a].rest.context)
    ensures OwnershipInv(s')
  {
    hide Owned, HandsAt, SurfaceFits, WaitFits;
    assert Owned(s, r, true) && Owned(s, r, false);
    OwnedHere(s, s', r, a, true);
    OwnedHere(s, s', r, a, false);
    forall r' | Known(s', r')
      ensures Owned(s', r', true) && Owned(s', r', false)
    {
      assert Known(s, r');
      if r' != r {
        OwnedThere(s, s', r, a, r', true);
        OwnedThere(s, s', r, a, r', false);
      }
    }
    forall b | b in s'.surfaces && s'.surfaces[b].session != Nobody
      ensures Known(s', s'.surfaces[b].session) && Used(At(s', s'.surfaces[b].session))
    {
      LocalUsed(s, s', r, a, b);
    }
    forall b | b in s'.waiting && s'.waiting[b].rest.Ending?
      ensures b in s'.surfaces && s'.surfaces[b].session == Of(s'.waiting[b].rest.context)
    {
      LocalEnding(s, s', r, a, b);
    }
  }

  lemma LocalEnding(s: State, s': State, r: Ref, a: int, b: int)
    requires OwnershipInv(s) && NoDangling(s') && OnlyAt(s, s', r, a)
    requires b in s'.waiting && s'.waiting[b].rest.Ending?
    requires a in s'.waiting && s'.waiting[a].rest.Ending? ==>
      a in s'.surfaces && s'.surfaces[a].session == Of(s'.waiting[a].rest.context)
    ensures b in s'.surfaces && s'.surfaces[b].session == Of(s'.waiting[b].rest.context)
  {
  }

  lemma LocalUsed(s: State, s': State, r: Ref, a: int, b: int)
    requires OwnershipInv(s) && NoDangling(s') && OnlyAt(s, s', r, a) && Known(s, r) && Known(s', r)
    requires b in s'.surfaces && s'.surfaces[b].session != Nobody
    requires a in s'.surfaces ==> s'.surfaces[a].session in {Nobody, r}
    requires At(s', r).output.next >= At(s, r).output.next && At(s', r).capture.next >= At(s, r).capture.next
    requires a in s'.surfaces && s'.surfaces[a].session == r && !(a in s.surfaces && s.surfaces[a].session == r) ==>
      Used(At(s', r))
    ensures Known(s', s'.surfaces[b].session) && Used(At(s', s'.surfaces[b].session))
  {
  }

  lemma StartSyncOwned(s: State, a: int, queued: bool, rest: Rest)
    requires OwnershipInv(s) && a in s.surfaces && a !in s.waiting && s.surfaces[a].status == Rendering
    requires rest.Beginning? ==> s.surfaces[a].session in {Nobody, Of(rest.context)}
    requires rest.Ending? ==> rest.context in s.contexts && s.surfaces[a].session in {Nobody, Of(rest.context)}
    ensures SurfaceFits(s, s.surfaces[a]) && OwnershipInv(StartSync(s, a, queued, rest))
  {
    hide Owned, PoolInv;
    assert SurfaceFits(s, s.surfaces[a]);
    StartSyncFits(s, a, queued, rest);
    var r := if s.surfaces[a].session == Nobody then Probe else s.surfaces[a].session;
    LocalOwned(s, StartSync(s, a, queued, rest), r, a);
  }

  ghost predicate SameUpToQueues(t: Session, t': Session)
  {
    t'.output == t.output.(queued := t'.output.queued) && t'.capture == t.capture.(queued := t'.capture.queued)
  }

  /** Steps that move no index. */
  lemma NothingMoves(s: State, s': State, r: Ref, a: int)
    requires OwnershipInv(s) && NoDangling(s') && OnlyAt(s, s', r, a) && Known(s, r) && Known(s', r)
    requires SameUpToQueues(At(s, r), At(s', r))
    requires a in s.surfaces && a in s'.surfaces && s.surfaces[a].session in {Nobody, r}
    requires s'.surfaces[a].session == s.surfaces[a].session
    requires s'.surfaces[a].source == s.surfaces[a].source && s'.surfaces[a].destination == s.surfaces[a].destination
    requires a in s'.waiting ==> a in s.waiting && s.waiting[a] == s'.waiting[a]
    ensures OwnershipInv(s')
  {
    hide Owned, SurfaceFits, WaitFits;
    LocalOwned(s, s', r, a);
  }

  lemma BindSourceOwned(s: State, c: int, a: int, mapped: bool)
    requires OwnershipInv(s) && c in s.contexts && a in s.surfaces && a !in s.waiting
    requires s.surfaces[a].session in {Nobody, Of(c)}
    ensures var x := BindSource(s.contexts[c].session, s.surfaces[a], Of(c), a, mapped);
      OwnershipInv(PutSurface(Put(s, Of(c), x.session), a, x.surface))
  {
    hide BindSource, PoolInv, Hands, Accounts;
    var t, u, r := s.contexts[c].session, s.surfaces[a], Of(c);
    var x := BindSource(t, u, r, a, mapped);
    var s' := PutSurface(Put(s, r, x.session), a, x.surface);
    assert SurfaceFits(s, u) && Owned(s, r, true);
    assert Accounts(t.output, a, ShareOf(s, a, r, true));
    BindsStay(t, u, r, a, Binds(mapped, false, false));
    BindSourceHands(t, u, r, a, mapped);
    SameHands(t.capture, a, Share(u, r, false));
    LocalFits(s, s', r, a);
    LocalOwned(s, s', r, a);
  }

  lemma BindDestinationOwned(s: State, r: Ref, a: int, binds: Binds)
    requires OwnershipInv(s) && Known(s, r) && a in s.surfaces && a !in s.waiting
    requires s.surfaces[a].session in {Nobody, r}
    ensures var x := BindDestination(At(s, r), s.surfaces[a], r, a, binds.sized, binds.mappedDestination);
      OwnershipInv(PutSurface(Put(s, r, x.session), a, x.surface))
  {
    hide BindDestination, PoolInv, Hands, Accounts;
    var t, u := At(s, r), s.surfaces[a];
    var x := BindDestination(t, u, r, a, binds.sized, binds.mappedDestination);
    var s' := PutSurface(Put(s, r, x.session), a, x.surface);
    assert SurfaceFits(s, u) && Owned(s, r, false);
    BindsStay(t, u, r, a, binds);
    BindDestinationHands(t, u, r, a, binds.sized, binds.mappedDestination);
    SameHands(t.output, a, Share(u, r, true));
    BoundFormat(t, u, r, a, binds);
    LocalFits(s, s', r, a);
    LocalOwned(s, s', r, a);
  }

  /** A CAPTURE buffer comes only from a configured session. */
  lemma BoundFormat(t: Session, u: Surface, r: Ref, a: int, binds: Binds)
    ensures var x := BindDestination(t, u, r, a, binds.sized, binds.mappedDestination); x.surface == u || t.format
  {
  }

  function Marked(s: State, c: int, a: int): State
    requires c in s.contexts && a in s.surfaces
  {
    SetRender(PutSurface(s, a, s.surfaces[a].(status := Rendering)), c, Some(a))
  }

  lemma MarkOwned(s: State, c: int, a: int)
    requires OwnershipInv(s) && c in s.contexts && a in s.surfaces && a !in s.waiting && s.surfaces[a].session == Of(c)
    ensures NoDangling(Marked(s, c, a)) && OwnershipInv(Marked(s, c, a))
  {
    hide Owned;
    assert SurfaceFits(s, s.surfaces[a]);
    LocalFits(s, Marked(s, c, a), Of(c), a);
    NothingMoves(s, Marked(s, c, a), Of(c), a);
  }

  lemma BindAndRenderOwned(s: State, c: int, a: int, av1: bool, binds: Binds)
    requires OwnershipInv(s) && c in s.contexts && a in s.surfaces && a !in s.waiting
    requires s.surfaces[a].session in {Nobody, Of(c)}
    ensures OwnershipInv(BindAndRender(s, c, a, av1, binds))
  {
    hide BindSource, BindDestination, OwnershipInv;
    var r := Of(c);
    var x := BindSource(s.contexts[c].session, s.surfaces[a], r, a, binds.mappedSource);
    var s1 := PutSurface(Put(s, r, x.session), a, x.surface);
    BindsStay(s.contexts[c].session, s.surfaces[a], r, a, binds);
    BindSourceOwned(s, c, a, binds.mappedSource);
    if x.ok {
      if av1 {
        MarkOwned(s1, c, a);
        Overwrite(s1, a, x.surface, x.surface.(status := Rendering));
      } else {
        var y := BindDestination(x.session, x.surface, r, a, binds.sized, binds.mappedDestination);
        var s2 := PutSurface(Put(s1, r, y.session), a, y.surface);
        BindDestinationOwned(s1, r, a, binds);
        BindsStay(x.session, x.surface, r, a, binds);
        if y.ok {
          MarkOwned(s2, c, a);
        }
      }
    }
  }

  lemma Overwrite(s: State, a: int, u: Surface, v: Surface)
    ensures PutSurface(PutSurface(s, a, u), a, v) == PutSurface(s, a, v)
  {
  }

  /** Releasing into the context's pool is sound exactly because the surface borrowed from that pool. */
  lemma ReleaseOwned(s: State, c: int, a: int)
    requires OwnershipInv(s) && c in s.contexts && a in s.surfaces && a !in s.waiting
    requires s.surfaces[a].session in {Nobody, Of(c)}
    ensures OwnershipInv(Release(s, c, a))
  {
    hide Owned, GiveBack, PoolInv, Hands, Accounts;
    var t, u := s.contexts[c].session, s.surfaces[a];
    assert SurfaceFits(s, u);
    ReleaseFits(s, c, a);
    GiveHands(t.output, a, Share(u, Of(c), true));
    SameHands(t.capture, a, Share(u, Of(c), false));
    LocalOwned(s, Release(s, c, a), Of(c), a);
  }

  lemma RecycleOwned(s: State, a: int)
    requires OwnershipInv(s) && a in s.surfaces && a !in s.waiting
    ensures SurfaceFits(s, s.surfaces[a]) && OwnershipInv(Recycle(s, a))
  {
    hide Owned, GiveBack, PoolInv, Hands, Accounts;
    var u := s.surfaces[a];
    assert SurfaceFits(s, u);
    RecycleFits(s, a);
    var r := if u.session == Nobody then Probe else u.session;
    var t := At(s, r);
    GiveHands(t.output, a, Share(u, r, true));
    GiveHands(t.capture, a, Share(u, r, false));
    SameHands(t.output, a, None);
    SameHands(t.capture, a, None);
    LocalOwned(s, Recycle(s, a), r, a);
  }

  lemma StrandOwned(s: State, a: int)
    requires OwnershipInv(s) && a in s.surfaces && a !in s.waiting
    ensures SurfaceFits(s, s.surfaces[a]) && OwnershipInv(Strand(s, a))
  {
    hide Owned, Lose, PoolInv, Hands, Accounts;
    var u := s.surfaces[a];
    assert SurfaceFits(s, u);
    RecycleFits(s, a);
    var r := if u.session == Nobody then Probe else u.session;
    var t := At(s, r);
    LoseHands(t.output, a, Share(u, r, true));
    LoseHands(t.capture, a, Share(u, r, false));
    SameHands(t.output, a, None);
    SameHands(t.capture, a, None);
    LocalOwned(s, Strand(s, a), r, a);
  }

  lemma FinishOwned(s: State, a: int, reply: Reply)
    requires OwnershipInv(s) && Legal(s, Resume(a, reply, Binds(false, false, false)))
    ensures WaitFits(s, a) && OwnershipInv(Arrive(FinishSync(s, a, s.waiting[a].from, reply), a))
  {
    hide Owned, PoolInv;
    assert WaitFits(s, a) && SurfaceFits(s, s.surfaces[a]);
    FinishFits(s, a, reply);
    var r := s.surfaces[a].session;
    if s.waiting[a].from == Probe {
      var r' := if r == Nobody then Probe else r;
      NothingMoves(s, Arrive(FinishSync(s, a, Probe, reply), a), r', a);
    } else {
      NothingMoves(s, Arrive(FinishSync(s, a, r, reply), a), r, a);
    }
  }

  lemma ResumeOwned(s: State, a: int, reply: Reply, binds: Binds)
    requires OwnershipInv(s) && Legal(s, Resume(a, reply, binds))
    ensures OwnershipInv(ResumeStep(s, a, reply, binds))
  {
    hide Owned, Recycle, Strand, BindAndRender, Release, FinishSync;
    assert WaitFits(s, a);
    FinishFits(s, a, reply);
    FinishOwned(s, a, reply);
    var s1 := Arrive(FinishSync(s, a, s.waiting[a].from, reply), a);
    match s.waiting[a].rest
    case Syncing =>
    case Destroying =>
      RecycleOwned(s1, a);
      StrandOwned(s1, a);
    case Beginning(c, av1) => BindAndRenderOwned(s1, c, a, av1, binds);
    case Ending(c) => ReleaseOwned(s1, c, a);
  }

  /** A context that never handed out an index has no borrowers, so nobody is left behind when its pool is replaced. */
  lemma AdoptOwned(s: State, c: int, matches: bool)
    requires OwnershipInv(s) && c in s.contexts && MayAdopt(s, c, matches)
    ensures OwnershipInv(Adopt(s, c))
    ensures forall a | a in s.surfaces :: s.surfaces[a].session != Of(c)
  {
    hide PoolInv, WaitFits;
    AdoptFits(s, c);
    var s' := Adopt(s, c);
    assert Known(s, Of(c)) && Known(s, Probe);
    forall r | Known(s', r)
      ensures Owned(s', r, true) && Owned(s', r, false)
    {
      assert Known(s, r) && Owned(s, r, true) && Owned(s, r, false);
      AdoptOwnedAt(s, c, r, true);
      AdoptOwnedAt(s, c, r, false);
    }
    forall a | a in s'.waiting && s'.waiting[a].rest.Ending?
      ensures a in s'.surfaces && s'.surfaces[a].session == Of(s'.waiting[a].rest.context)
    {
      assert WaitFits(s, a);
    }
    forall a | a in s'.surfaces && s'.surfaces[a].session != Nobody
      ensures Known(s', s'.surfaces[a].session) && Used(At(s', s'.surfaces[a].session))
    {
      assert SurfaceFits(s', s'.surfaces[a]) && SurfaceFits(s, s.surfaces[a]);
    }
  }

  lemma AdoptOwnedAt(s: State, c: int, r: Ref, out: bool)
    requires c in s.contexts && Known(s, r)
    requires forall a | a in s.surfaces :: s.surfaces[a].session != Of(c)
    requires Owned(s, r, out) && Owned(s, Probe, out)
    ensures Owned(Adopt(s, c), r, out)
  {
    var s' := Adopt(s, c);
    var from := if r == Of(c) then Probe else r;
    forall a: int
      ensures Accounts(PoolOf(At(s', r), out), a, ShareOf(s', a, r, out))
    {
      assert Accounts(PoolOf(At(s, from), out), a, ShareOf(s, a, from, out));
    }
  }

  lemma BeginOwned(s: State, c: int, a: int, av1: bool, matches: bool, queued: bool, binds: Binds)
    requires OwnershipInv(s) && c in s.contexts && a in s.surfaces && a !in s.waiting
    ensures SurfaceFits(s, s.surfaces[a]) && OwnershipInv(BeginStep(s, c, a, av1, matches, queued, binds))
  {
    hide Owned, BindAndRender, StartSync, WaitFits;
    assert SurfaceFits(s, s.surfaces[a]);
    var r := s.surfaces[a].session;
    if r == Nobody || r == Of(c) || (r == Probe && MayAdopt(s, c, matches)) {
      var s1 := if r == Probe then Adopt(s, c) else s;
      if r == Probe {
        AdoptOwned(s, c, matches);
      }
      if s1.surfaces[a].status == Rendering {
        StartSyncOwned(s1, a, queued, Beginning(c, av1));
      } else {
        BindAndRenderOwned(s1, c, a, av1, binds);
      }
    }
  }

  lemma SessionOwned(s: State, c: int, a: int, t: Session)
    requires OwnershipInv(s) && c in s.contexts && a in s.surfaces && a !in s.waiting
    requires s.surfaces[a].session in {Nobody, Of(c)}
    requires SameUpToQueues(s.contexts[c].session, t) && t.format == s.contexts[c].session.format
    ensures OwnershipInv(Put(s, Of(c), t))
  {
    hide Owned;
    assert SurfaceFits(s, s.surfaces[a]);
    LocalFits(s, Put(s, Of(c), t), Of(c), a);
    NothingMoves(s, Put(s, Of(c), t), Of(c), a);
  }

  lemma SubmitOwned(s: State, c: int, a: int, submit: Submit)
    requires OwnershipInv(s) && c in s.contexts && a in s.surfaces && a !in s.waiting
    requires s.surfaces[a].session in {Nobody, Of(c)}
    ensures OwnershipInv(SubmitStep(s, c, a, submit))
  {
    hide OwnershipInv, StartSync, Release;
    var t := s.contexts[c].session;
    SessionOwned(s, c, a, t.(streaming := true));
    var (t', both) := QueueBoth(t.(streaming := true), s.surfaces[a], submit);
    var s' := Put(s, Of(c), t');
    SessionOwned(s, c, a, t');
    if s.surfaces[a].status == Rendering {
      StartSyncOwned(s', a, submit.queuedRequest, Ending(c));
    } else {
      ReleaseOwned(s', c, a);
    }
  }

  /** The render target is still bound to this context's session, or to none: the driver does not check it. */
  predicate TargetIsOurs(s: State, c: int)
    requires c in s.contexts
  {
    var x := s.contexts[c].render;
    x.Some? && x.value in s.surfaces ==> s.surfaces[x.value].session in {Nobody, Of(c)}
  }

  lemma RequestOwned(s: State, r: Ref, a: int)
    requires OwnershipInv(s) && Known(s, r)
    requires a in s.surfaces && a !in s.waiting && s.surfaces[a].session in {Nobody, r}
    ensures OwnershipInv(PutSurface(s, a, s.surfaces[a].(request := true)))
  {
    hide Owned;
    assert SurfaceFits(s, s.surfaces[a]);
    var s' := PutSurface(s, a, s.surfaces[a].(request := true));
    LocalFits(s, s', r, a);
    NothingMoves(s, s', r, a);
  }

  lemma EndOwned(s: State, c: int, binds: Binds, submit: Submit)
    requires OwnershipInv(s) && Legal(s, EndPicture(c, binds, submit)) && TargetIsOurs(s, c)
    ensures OwnershipInv(EndStep(s, c, binds, submit))
  {
    hide OwnershipInv, SubmitStep, BindDestination;
    var x := s.contexts[c];
    if x.render.Some? && x.render.value in s.surfaces && x.session.format {
      var a := x.render.value;
      var u := s.surfaces[a];
      BindDestinationOwned(s, Of(c), a, binds);
      BindsStay(x.session, u, Of(c), a, binds);
      var y := if u.destination == None
               then BindDestination(x.session, u, Of(c), a, binds.sized, binds.mappedDestination)
               else Bound(x.session, u, true);
      var s1 := PutSurface(Put(s, Of(c), y.session), a, y.surface);
      assert u.destination != None ==> s1 == s;
      if y.ok {
        RequestOwned(s1, Of(c), a);
        SubmitOwned(PutSurface(s1, a, y.surface.(request := true)), c, a, submit);
      }
    }
  }

  lemma ExportOwned(s: State, a: int, via: Ref, binds: Binds)
    requires OwnershipInv(s) && a in s.surfaces && a !in s.waiting && Known(s, via)
    ensures SurfaceFits(s, s.surfaces[a]) && OwnershipInv(ExportStep(s, a, via, binds))
  {
    hide Owned, BindDestination;
    assert SurfaceFits(s, s.surfaces[a]);
    BindDestinationOwned(s, if s.surfaces[a].session == Nobody then via else s.surfaces[a].session, a, binds);
  }

  lemma DestroyOwned(s: State, a: int, queued: bool)
    requires OwnershipInv(s) && a in s.surfaces && a !in s.waiting
    ensures SurfaceFits(s, s.surfaces[a]) && OwnershipInv(DestroyStep(s, a, queued))
  {
    hide Owned, Recycle, Strand;
    assert SurfaceFits(s, s.surfaces[a]);
    RecycleOwned(s, a);
    if s.surfaces[a].session != Nobody && s.surfaces[a].status == Rendering {
      StartSyncOwned(s, a, queued, Destroying);
      if !SyncWaits(s, a, queued) {
        StrandOwned(StartSync(s, a, queued, Destroying), a);
      }
    }
  }

  /** The surfaces left behind hold nothing of any other session either. */
  lemma DestroyContextOwned(s: State, c: int)
    requires OwnershipInv(s) && Legal(s, DestroyContext(c))
    ensures OwnershipInv(Step(s, DestroyContext(c)))
  {
    hide PoolInv;
    DestroyContextFits(s, c);
    var s' := Step(s, DestroyContext(c));
    forall r | Known(s', r)
      ensures Owned(s', r, true) && Owned(s', r, false)
    {
      assert Known(s, r) && Owned(s, r, true) && Owned(s, r, false);
      forall out: bool, a: int
        ensures Accounts(PoolOf(At(s', r), out), a, ShareOf(s', a, r, out))
      {
        assert Owned(s, r, out) && Accounts(PoolOf(At(s, r), out), a, ShareOf(s, a, r, out));
      }
    }
    forall a | a in s'.waiting && s'.waiting[a].rest.Ending?
      ensures a in s'.surfaces && s'.surfaces[a].session == Of(s'.waiting[a].rest.context)
    {
      assert WaitFits(s, a) && !Names(s.waiting[a].rest, c);
    }
    forall a | a in s'.surfaces && s'.surfaces[a].session != Nobody
      ensures Known(s', s'.surfaces[a].session) && Used(At(s', s'.surfaces[a].session))
    {
      assert SurfaceFits(s', s'.surfaces[a]) && SurfaceFits(s, s.surfaces[a]);
    }
  }

  lemma FreshPool(n: nat, a: int)
    requires n <= MAX_BUFFERS
    ensures PoolInv(Granted(n)) && Accounts(Granted(n), a, None)
  {
  }

  lemma OpenOwned(s: State, e: Event)
    requires OwnershipInv(s) && Legal(s, e)
    requires e.CreateSurface? || e.OpenProbe? || e.CreateContext? || e.SwitchBitDepth?
    ensures OwnershipInv(Step(s, e))
  {
    hide PoolInv, Accounts, Granted;
    OpenFits(s, e);
    var s' := Step(s, e);
    forall r | Known(s', r)
      ensures Owned(s', r, true) && Owned(s', r, false)
    {
      OpenOwnedAt(s, e, r, true);
      OpenOwnedAt(s, e, r, false);
    }
    forall a | a in s'.waiting && s'.waiting[a].rest.Ending?
      ensures a in s'.surfaces && s'.surfaces[a].session == Of(s'.waiting[a].rest.context)
    {
      assert WaitFits(s, a);
    }
    forall a | a in s'.surfaces && s'.surfaces[a].session != Nobody
      ensures Known(s', s'.surfaces[a].session) && Used(At(s', s'.surfaces[a].session))
    {
      assert SurfaceFits(s', s'.surfaces[a]) && SurfaceFits(s, s.surfaces[a]);
    }
  }

  /** The pools these steps make new. */
  predicate MakesNew(e: Event, r: Ref, out: bool)
  {
    (e.OpenProbe? && r == Probe) || (e.CreateContext? && r == Of(e.c)) || (e.SwitchBitDepth? && r == Of(e.c) && !out)
  }

  lemma OpenOwnedAt(s: State, e: Event, r: Ref, out: bool)
    requires OwnershipInv(s) && Legal(s, e) && Known(Step(s, e), r)
    requires e.CreateSurface? || e.OpenProbe? || e.CreateContext? || e.SwitchBitDepth?
    ensures Owned(Step(s, e), r, out)
  {
    hide PoolInv, Accounts, Granted;
    var s' := Step(s, e);
    var p' := PoolOf(At(s', r), out);
    if MakesNew(e, r, out) {
      var n := if out then e.outputs else e.captures;
      assert p' == Granted(n);
      FreshPool(n, 0);
      forall a: int
        ensures Accounts(p', a, ShareOf(s', a, r, out))
      {
        FreshPool(n, a);
        NobodyHolds(s, e, r, out, a);
      }
    } else {
      assert Known(s, r) && Owned(s, r, true) && Owned(s, r, false);
      assert p' == PoolOf(At(s, r), out);
      forall a: int
        ensures Accounts(p', a, ShareOf(s', a, r, out))
      {
        assert Accounts(p', a, ShareOf(s, a, r, out));
      }
    }
  }

  lemma NobodyHolds(s: State, e: Event, r: Ref, out: bool, a: int)
    requires OwnershipInv(s) && Legal(s, e) && MakesNew(e, r, out)
    ensures ShareOf(Step(s, e), a, r, out) == None
  {
    hide PoolInv, Accounts;
    if a in s.surfaces {
      assert SurfaceFits(s, s.surfaces[a]);
      if e.SwitchBitDepth? {
        assert Owned(s, r, false) && Accounts(At(s, r).capture, a, ShareOf(s, a, r, false));
        NothingHeld(At(s, r).capture, a, ShareOf(s, a, r, false));
      }
    }
  }

  lemma NothingHeld(p: Pool, a: int, o: Option<nat>)
    requires PoolInv(p) && Accounts(p, a, o) && p.next == 0
    ensures o == None
  {
  }

  /** What the driver leaves to its caller. */
  predicate Proper(s: State, e: Event)
    requires Legal(s, e)
  {
    e.EndPicture? ==> TargetIsOurs(s, e.c)
  }

  lemma StepOwned(s: State, e: Event)
    requires OwnershipInv(s) && Legal(s, e) && Proper(s, e)
    ensures OwnershipInv(Step(s, e))
  {
    hide ExportStep, BeginStep, EndStep, DestroyStep, ResumeStep, StartSync, Owned;
    match e
    case DestroyContext(c) => DestroyContextOwned(s, c);
    case Export(a, via, binds) => ExportOwned(s, a, via, binds);
    case BeginPicture(c, a, av1, matches, queued, binds) => BeginOwned(s, c, a, av1, matches, queued, binds);
    case EndPicture(c, binds, submit) => EndOwned(s, c, binds, submit);
    case SyncSurface(a, queued) =>
      if s.surfaces[a].status == Rendering {
        StartSyncOwned(s, a, queued, Syncing);
      }
    case DestroySurface(a, queued) => DestroyOwned(s, a, queued);
    case Resume(a, reply, binds) => ResumeOwned(s, a, reply, binds);
    case _ => OpenOwned(s, e);
  }

  ghost predicate ProperRun(s: State, es: seq<Event>, s': State)
    requires NoDangling(s)
    decreases |es|
  {
    if es == [] then s' == s
    else Legal(s, es[0]) && Proper(s, es[0]) && (StepFits(s, es[0]); ProperRun(Step(s, es[0]), es[1..], s'))
  }

  lemma {:induction false} RunsKeepOwnership(s: State, es: seq<Event>, s': State)
    requires OwnershipInv(s) && ProperRun(s, es, s')
    ensures OwnershipInv(s')
    decreases |es|
  {
    if es != [] {
      StepFits(s, es[0]);
      StepOwned(s, es[0]);
      RunsKeepOwnership(Step(s, es[0]), es[1..], s');
    }
  }

  ghost predicate HeldBySome(s: State, r: Ref, out: bool, i: nat)
  {
    exists a :: a in s.surfaces && Share(s.surfaces[a], r, out) == Some(i)
  }

  ghost predicate LostIn(p: Pool, i: nat)
  {
    i in p.owner && p.owner[i] == Lost
  }

  /**
  The main result: after any run from the start, the indices on the free stack, those held by live surfaces and
  those lost are apart, none twice, and together exactly the ones handed out so far, which the kernel granted.
  */
  lemma IndicesArePartitioned(es: seq<Event>, s: State, r: Ref, out: bool)
    requires NoDangling(START) && ProperRun(START, es, s) && Known(s, r)
    ensures Partitioned(s, r, out)
  {
    hide PoolInv, Partitioned, Owned;
    StartOwned();
    RunsKeepOwnership(START, es, s);
    assert Owned(s, r, true) && Owned(s, r, false);
    OwnedPartitions(s, r, out);
  }

  ghost predicate Partitioned(s: State, r: Ref, out: bool)
    requires Known(s, r)
  {
    var p := PoolOf(At(s, r), out);
    && p.next <= p.granted <= MAX_BUFFERS && |p.free| <= p.next
    && Distinct(p.free)
    && (forall i: nat :: i < p.next <==> i in p.free || HeldBySome(s, r, out, i) || LostIn(p, i))
    && (forall i: nat :: !(i in p.free && HeldBySome(s, r, out, i)) && !(i in p.free && LostIn(p, i))
          && !(HeldBySome(s, r, out, i) && LostIn(p, i)))
    && (forall a, b, i: nat | a in s.surfaces && b in s.surfaces ::
          Share(s.surfaces[a], r, out) == Some(i) && Share(s.surfaces[b], r, out) == Some(i) ==> a == b)
  }

  lemma OwnedPartitions(s: State, r: Ref, out: bool)
    requires Known(s, r) && Owned(s, r, out)
    ensures Partitioned(s, r, out)
  {
    hide HeldBySome, Share, Owned;
    var p := PoolOf(At(s, r), out);
    OwnedPool(s, r, out);
    DistinctBelow(p.free, p.next);
    forall i: nat
      ensures HeldBySome(s, r, out, i) <==> i in p.owner && p.owner[i].Held?
    {
      HeldExactly(s, r, out, i);
    }
    forall a, b, i: nat | a in s.surfaces && b in s.surfaces
        && Share(s.surfaces[a], r, out) == Some(i) && Share(s.surfaces[b], r, out) == Some(i)
      ensures a == b
    {
      HolderIs(s, r, out, a, i);
      HolderIs(s, r, out, b, i);
    }
  }

  lemma OwnedPool(s: State, r: Ref, out: bool)
    requires Known(s, r) && Owned(s, r, out)
    ensures PoolInv(PoolOf(At(s, r), out))
  {
  }

  lemma HolderIs(s: State, r: Ref, out: bool, a: int, i: nat)
    requires Known(s, r) && Owned(s, r, out) && a in s.surfaces
    ensures var p := PoolOf(At(s, r), out);
      Share(s.surfaces[a], r, out) == Some(i) <==> i in p.owner && p.owner[i] == Held(a)
  {
    hide PoolInv;
    assert Accounts(PoolOf(At(s, r), out), a, ShareOf(s, a, r, out));
  }

  /** An index is held by some surface exactly when the pool's books say so. */
  lemma HeldExactly(s: State, r: Ref, out: bool, i: nat)
    requires Known(s, r) && Owned(s, r, out)
    ensures var p := PoolOf(At(s, r), out); HeldBySome(s, r, out, i) <==> i in p.owner && p.owner[i].Held?
  {
    hide PoolInv;
    var p := PoolOf(At(s, r), out);
    if i in p.owner && p.owner[i].Held? {
      var a := p.owner[i].surface;
      assert Accounts(p, a, ShareOf(s, a, r, out));
    }
    if HeldBySome(s, r, out, i) {
      var a :| a in s.surfaces && Share(s.surfaces[a], r, out) == Some(i);
      assert Accounts(p, a, ShareOf(s, a, r, out));
    }
  }

  lemma StartOwned()
    ensures NoDangling(START) && OwnershipInv(START)
  {
  }
}
