/**
The same two results for clients that keep to the order of calls VA-API asks for: between vaBeginPicture and a
successful vaEndPicture on a context, its render target is not destroyed, synced or begun again.
*/
module ProtocolClients {
  import opened Options
  import opened Ownership
  import opened Protocol
  import opened ProtocolOwnership
  import opened ProtocolInFlight

  ghost predicate Targeted(s: State, a: int)
  {
    exists c :: c in s.contexts && s.contexts[c].render == Some(a)
  }

  /** A condition on the order of calls alone: it says nothing about what the driver or the kernel answers. */
  ghost predicate Orderly(s: State, e: Event)
  {
    match e
    case DestroySurface(a, _) => !Targeted(s, a)
    case SyncSurface(a, _) => !Targeted(s, a)
    case BeginPicture(_, a, _, _, _, _) => !Targeted(s, a)
    case _ => true
  }

  ghost predicate TargetFits(s: State, c: int)
    requires c in s.contexts
  {
    var x := s.contexts[c].render;
    x.Some? ==> x.value in s.surfaces && Renders(s.surfaces[x.value], Of(c))
  }

  /** As vaBeginPicture leaves a render target. */
  predicate Renders(u: Surface, r: Ref)
  {
    u.session == r && u.status == Rendering && u.source.Some?
  }

  /** Every render target is still the surface its context began, and only its own context's end waits with it. */
  ghost predicate TargetsFit(s: State)
  {
    && (forall c | c in s.contexts :: TargetFits(s, c))
    && (forall a | a in s.waiting :: s.waiting[a].rest.Ending? || !Targeted(s, a))
  }

  /** A step about surface a and context c keeps every other context's target. */
  lemma LocalTargets(s: State, s': State, r: Ref, a: int)
    requires TargetsFit(s) && OnlyAt(s, s', r, a)
    requires forall d | d in s'.contexts :: s'.contexts[d].render == s.contexts[d].render || r == Of(d)
    requires forall d | d in s.contexts && s.contexts[d].render == Some(a) && r != Of(d) ::
      a in s'.surfaces && Renders(s'.surfaces[a], Of(d))
    requires r.Of? && r.context in s'.contexts ==> TargetFits(s', r.context)
    requires r.Of? && r.context in s'.contexts && s'.contexts[r.context].render.Some? ==>
      s'.contexts[r.context].render == s.contexts[r.context].render || s'.contexts[r.context].render == Some(a)
    requires a in s'.waiting ==> s'.waiting[a].rest.Ending? || !Targeted(s', a)
    ensures TargetsFit(s')
  {
    forall d | d in s'.contexts
      ensures TargetFits(s', d)
    {
      assert TargetFits(s, d);
      if r != Of(d) && s.contexts[d].render.Some? {
        var b := s.contexts[d].render.value;
        assert b != a ==> s.surfaces[b] == s'.surfaces[b];
      }
    }
    forall b | b in s'.waiting
      ensures s'.waiting[b].rest.Ending? || !Targeted(s', b)
    {
      if b != a && Targeted(s', b) {
        var d :| d in s'.contexts && s'.contexts[d].render == Some(b);
        assert s.contexts[d].render == Some(b);
        assert Targeted(s, b);
      }
    }
  }

  lemma StartSyncTargets(s: State, a: int, queued: bool, rest: Rest)
    requires TargetsFit(s) && a in s.surfaces && (s.surfaces[a].session == Nobody || Known(s, s.surfaces[a].session))
    requires rest.Ending? || !Targeted(s, a)
    ensures TargetsFit(StartSync(s, a, queued, rest))
  {
  }

  /** A step on a surface nobody targets, which changes no context's target. */
  lemma UntargetedStep(s: State, s': State, r: Ref, a: int)
    requires TargetsFit(s) && OnlyAt(s, s', r, a) && !Targeted(s, a) && a !in s'.waiting
    requires forall d | d in s'.contexts :: s'.contexts[d].render == s.contexts[d].render
    ensures TargetsFit(s')
  {
    if r.Of? && r.context in s'.contexts {
      assert TargetFits(s, r.context);
      assert s'.contexts[r.context].render != Some(a);
      if s'.contexts[r.context].render.Some? {
        var b := s'.contexts[r.context].render.value;
        assert s.surfaces[b] == s'.surfaces[b];
      }
    }
    LocalTargets(s, s', r, a);
  }

  ghost predicate SameRenders(s: State, s': State)
  {
    forall d | d in s.contexts && d in s'.contexts :: s'.contexts[d].render == s.contexts[d].render
  }

  lemma BindAndRenderMarks(s: State, c: int, a: int, av1: bool, binds: Binds)
    requires c in s.contexts && a in s.surfaces && a !in s.waiting && s.surfaces[a].session in {Nobody, Of(c)}
    ensures var s' := BindAndRender(s, c, a, av1, binds);
      && OnlyAt(s, s', Of(c), a) && s'.waiting == s.waiting
      && (forall d | d in s.contexts && d != c :: s'.contexts[d].render == s.contexts[d].render)
      && (s'.contexts[c].render == s.contexts[c].render
          || (s'.contexts[c].render == Some(a) && a in s'.surfaces && Renders(s'.surfaces[a], Of(c))))
  {
    hide BindSource, BindDestination;
    var t, u, r := s.contexts[c].session, s.surfaces[a], Of(c);
    var x := BindSource(t, u, r, a, binds.mappedSource);
    BindsStay(t, u, r, a, binds);
    BindsStay(x.session, x.surface, r, a, binds);
  }

  lemma BindAndRenderTargets(s: State, c: int, a: int, av1: bool, binds: Binds)
    requires TargetsFit(s) && c in s.contexts && a in s.surfaces && a !in s.waiting && !Targeted(s, a)
    requires s.surfaces[a].session in {Nobody, Of(c)}
    ensures TargetsFit(BindAndRender(s, c, a, av1, binds))
  {
    hide BindAndRender, TargetsFit;
    BindAndRenderMarks(s, c, a, av1, binds);
    var s' := BindAndRender(s, c, a, av1, binds);
    if s'.contexts[c].render == s.contexts[c].render {
      UntargetedStep(s, s', Of(c), a);
    } else {
      LocalTargets(s, s', Of(c), a);
    }
  }

  lemma RemoveTargets(s: State, a: int)
    requires TargetsFit(s) && NoDangling(s) && a in s.surfaces && a !in s.waiting && !Targeted(s, a)
    ensures SurfaceFits(s, s.surfaces[a]) && TargetsFit(Recycle(s, a)) && TargetsFit(Strand(s, a))
  {
  }

  lemma AdoptTargets(s: State, c: int, matches: bool)
    requires OwnershipInv(s) && TargetsFit(s) && c in s.contexts && MayAdopt(s, c, matches)
    ensures TargetsFit(Adopt(s, c)) && forall a :: Targeted(Adopt(s, c), a) <==> Targeted(s, a)
  {
    hide OwnershipInv;
    AdoptOwned(s, c, matches);
    var s' := Adopt(s, c);
    forall a
      ensures Targeted(s', a) <==> Targeted(s, a)
    {
      forall d | d in s.contexts
        ensures s'.contexts[d].render == s.contexts[d].render
      {
      }
    }
    forall d | d in s'.contexts
      ensures TargetFits(s', d)
    {
      assert TargetFits(s, d) && s'.contexts[d].render == s.contexts[d].render;
      if s.contexts[d].render.Some? {
        var b := s.contexts[d].render.value;
        assert s'.surfaces[b] == MoveSession(s.surfaces[b], Probe, Of(c));
      }
    }
  }

  lemma BeginTargets(s: State, c: int, a: int, av1: bool, matches: bool, queued: bool, binds: Binds)
    requires OwnershipInv(s) && TargetsFit(s) && c in s.contexts
    requires a in s.surfaces && a !in s.waiting && !Targeted(s, a)
    ensures SurfaceFits(s, s.surfaces[a]) && TargetsFit(BeginStep(s, c, a, av1, matches, queued, binds))
  {
    hide OwnershipInv, BindAndRender, StartSync, TargetsFit, Targeted;
    OwnedFits(s, a);
    var r := s.surfaces[a].session;
    if r == Nobody || r == Of(c) || (r == Probe && MayAdopt(s, c, matches)) {
      var s1 := if r == Probe then Adopt(s, c) else s;
      if r == Probe {
        AdoptTargets(s, c, matches);
      }
      if s1.surfaces[a].status == Rendering {
        StartSyncTargets(s1, a, queued, Beginning(c, av1));
      } else {
        BindAndRenderTargets(s1, c, a, av1, binds);
      }
    }
  }

  /** A step that binds more to a render target, and leaves it rendering. */
  lemma TargetStep(s: State, s': State, c: int, a: int)
    requires TargetsFit(s) && OnlyAt(s, s', Of(c), a) && c in s.contexts && s.contexts[c].render == Some(a)
    requires forall d | d in s'.contexts :: s'.contexts[d].render == s.contexts[d].render
    requires a in s'.surfaces && Renders(s'.surfaces[a], Of(c)) && a !in s'.waiting
    ensures TargetsFit(s')
  {
    assert TargetFits(s, c);
    forall d | d in s.contexts && s.contexts[d].render == Some(a)
      ensures d == c
    {
      assert TargetFits(s, d);
    }
    LocalTargets(s, s', Of(c), a);
  }

  lemma SubmitTargets(s: State, c: int, a: int, submit: Submit)
    requires TargetsFit(s) && c in s.contexts && s.contexts[c].render == Some(a) && a !in s.waiting && a in s.surfaces
    requires s.surfaces[a].session == Of(c)
    ensures TargetsFit(SubmitStep(s, c, a, submit))
  {
  }

  lemma EndTargets(s: State, c: int, binds: Binds, submit: Submit)
    requires OwnershipInv(s) && TargetsFit(s) && Legal(s, EndPicture(c, binds, submit))
    ensures TargetsFit(EndStep(s, c, binds, submit))
  {
    hide OwnershipInv, SubmitStep, BindDestination, TargetsFit;
    var x := s.contexts[c];
    if x.render.Some? && x.render.value in s.surfaces && x.session.format {
      var a := x.render.value;
      var u := s.surfaces[a];
      TargetIsFit(s, c);
      BindsStay(x.session, u, Of(c), a, binds);
      var y := if u.destination == None
               then BindDestination(x.session, u, Of(c), a, binds.sized, binds.mappedDestination)
               else Bound(x.session, u, true);
      var s1 := PutSurface(Put(s, Of(c), y.session), a, y.surface);
      TargetStep(s, s1, c, a);
      if y.ok {
        var s2 := PutSurface(s1, a, y.surface.(request := true));
        TargetStep(s1, s2, c, a);
        SubmitTargets(s2, c, a, submit);
      }
    }
  }

  lemma TargetIsFit(s: State, c: int)
    requires TargetsFit(s) && c in s.contexts
    ensures TargetFits(s, c)
  {
  }

  lemma FinishTargets(s: State, a: int, reply: Reply)
    requires OwnershipInv(s) && TargetsFit(s) && Legal(s, Resume(a, reply, Binds(false, false, false)))
    requires !Targeted(s, a)
    ensures WaitFits(s, a)
    ensures var s1 := Arrive(FinishSync(s, a, s.waiting[a].from, reply), a); TargetsFit(s1) && !Targeted(s1, a)
  {
  }

  /** The end of a vaEndPicture that waited: the context lets go of its target as the surface stops rendering. */
  lemma EndedTargets(s: State, a: int, reply: Reply)
    requires OwnershipInv(s) && TargetsFit(s) && Legal(s, Resume(a, reply, Binds(false, false, false)))
    requires s.waiting[a].rest.Ending?
    ensures WaitFits(s, a)
    ensures var c, s1 := s.waiting[a].rest.context, Arrive(FinishSync(s, a, s.waiting[a].from, reply), a);
      a in s1.surfaces && c in s1.contexts && TargetsFit(if reply.Completed? then Release(s1, c, a) else s1)
  {
    hide Owned, GiveBack;
    assert WaitFits(s, a) && SurfaceFits(s, s.surfaces[a]);
    var c, from := s.waiting[a].rest.context, s.waiting[a].from;
    var s1 := Arrive(FinishSync(s, a, from, reply), a);
    forall d | d in s.contexts && s.contexts[d].render == Some(a)
      ensures d == c
    {
      assert TargetFits(s, d);
    }
    assert TargetFits(s, c);
    if reply.Completed? {
      assert from == Of(c);
      LocalTargets(s, Release(s1, c, a), Of(c), a);
    } else if from == Of(c) {
      LocalTargets(s, s1, Of(c), a);
    } else {
      LocalTargets(s, s1, Probe, a);
    }
  }

  lemma ResumeTargets(s: State, a: int, reply: Reply, binds: Binds)
    requires OwnershipInv(s) && TargetsFit(s) && Legal(s, Resume(a, reply, binds))
    ensures TargetsFit(ResumeStep(s, a, reply, binds))
  {
    hide Recycle, Strand, BindAndRender, Release, FinishSync, TargetFits, Owned, Targeted;
    assert WaitFits(s, a);
    FinishFits(s, a, reply);
    var s1 := Arrive(FinishSync(s, a, s.waiting[a].from, reply), a);
    match s.waiting[a].rest
    case Syncing => FinishTargets(s, a, reply);
    case Destroying =>
      FinishTargets(s, a, reply);
      RemoveTargets(s1, a);
    case Beginning(c, av1) =>
      FinishTargets(s, a, reply);
      BindAndRenderTargets(s1, c, a, av1, binds);
    case Ending(c) => EndedTargets(s, a, reply);
  }

  lemma TargetedBy(s: State, a: int) returns (c: int)
    requires TargetsFit(s) && Targeted(s, a)
    ensures c in s.contexts && s.contexts[c].render == Some(a) && TargetFits(s, c)
  {
    c :| c in s.contexts && s.contexts[c].render == Some(a);
    assert TargetFits(s, c);
  }

  lemma ExportBinds(s: State, a: int, via: Ref, binds: Binds)
    requires a in s.surfaces && Known(s, via) && (s.surfaces[a].session == Nobody || Known(s, s.surfaces[a].session))
    ensures var r := if s.surfaces[a].session == Nobody then via else s.surfaces[a].session;
      var s' := ExportStep(s, a, via, binds);
      && OnlyAt(s, s', r, a) && s'.waiting == s.waiting && SameRenders(s, s') && a in s'.surfaces
      && (forall c | Renders(s.surfaces[a], Of(c)) :: Renders(s'.surfaces[a], Of(c)))
  {
    hide BindDestination;
    var r := if s.surfaces[a].session == Nobody then via else s.surfaces[a].session;
    BindsStay(At(s, r), s.surfaces[a], r, a, binds);
  }

  lemma ExportTargets(s: State, a: int, via: Ref, binds: Binds)
    requires OwnershipInv(s) && TargetsFit(s) && a in s.surfaces && a !in s.waiting && Known(s, via)
    ensures SurfaceFits(s, s.surfaces[a]) && TargetsFit(ExportStep(s, a, via, binds))
  {
    hide OwnershipInv, ExportStep, TargetsFit, Targeted;
    OwnedFits(s, a);
    var r := if s.surfaces[a].session == Nobody then via else s.surfaces[a].session;
    ExportBinds(s, a, via, binds);
    var s' := ExportStep(s, a, via, binds);
    if Targeted(s, a) {
      var c := TargetedBy(s, a);
      TargetStep(s, s', c, a);
    } else {
      UntargetedStep(s, s', r, a);
    }
  }

  lemma DestroyTargets(s: State, a: int, queued: bool)
    requires OwnershipInv(s) && TargetsFit(s) && a in s.surfaces && a !in s.waiting && !Targeted(s, a)
    ensures SurfaceFits(s, s.surfaces[a]) && TargetsFit(DestroyStep(s, a, queued))
  {
    hide Owned, Recycle, Strand, TargetsFit, Targeted;
    assert SurfaceFits(s, s.surfaces[a]);
    RemoveTargets(s, a);
    if s.surfaces[a].session != Nobody && s.surfaces[a].status == Rendering {
      StartSyncFits(s, a, queued, Destroying);
      StartSyncTargets(s, a, queued, Destroying);
      var s1 := StartSync(s, a, queued, Destroying);
      if !SyncWaits(s, a, queued) {
        SameTargets(s, s1, a);
        RemoveTargets(s1, a);
      }
    }
  }

  lemma SameTargets(s: State, s': State, a: int)
    requires s'.contexts == s.contexts && !Targeted(s, a)
    ensures !Targeted(s', a)
  {
  }

  lemma OtherTargets(s: State, e: Event)
    requires OwnershipInv(s) && TargetsFit(s) && Legal(s, e)
    requires e.CreateSurface? || e.OpenProbe? || e.CreateContext? || e.SwitchBitDepth? || e.DestroyContext?
    ensures TargetsFit(Step(s, e))
  {
    hide Owned;
    var s' := Step(s, e);
    forall d | d in s'.contexts
      ensures TargetFits(s', d)
    {
      assert d in s.contexts ==> TargetFits(s, d) && s'.contexts[d].render == s.contexts[d].render;
      if s'.contexts[d].render.Some? {
        var b := s'.contexts[d].render.value;
        assert d in s.contexts && b in s.surfaces && s.surfaces[b].session == Of(d);
        assert b in s'.surfaces && s'.surfaces[b] == s.surfaces[b];
      }
    }
    forall b | b in s'.waiting
      ensures s'.waiting[b].rest.Ending? || !Targeted(s', b)
    {
      if Targeted(s', b) {
        var d :| d in s'.contexts && s'.contexts[d].render == Some(b);
        assert d in s.contexts && s.contexts[d].render == Some(b);
        assert Targeted(s, b);
      }
    }
  }

  lemma StepTargets(s: State, e: Event)
    requires OwnershipInv(s) && TargetsFit(s) && Legal(s, e) && Orderly(s, e)
    ensures TargetsFit(Step(s, e)) && (e.EndPicture? ==> TargetIsRendering(s, e.c))
  {
    hide ExportStep, BeginStep, EndStep, DestroyStep, ResumeStep, StartSync, Owned, TargetsFit, Targeted;
    match e
    case Export(a, via, binds) => ExportTargets(s, a, via, binds);
    case BeginPicture(c, a, av1, matches, queued, binds) => BeginTargets(s, c, a, av1, matches, queued, binds);
    case EndPicture(c, binds, submit) =>
      TargetIsFit(s, c);
      EndTargets(s, c, binds, submit);
    case SyncSurface(a, queued) =>
      if s.surfaces[a].status == Rendering {
        OwnedFits(s, a);
        StartSyncTargets(s, a, queued, Syncing);
      }
    case DestroySurface(a, queued) => DestroyTargets(s, a, queued);
    case Resume(a, reply, binds) => ResumeTargets(s, a, reply, binds);
    case _ => OtherTargets(s, e);
  }

  ghost predicate OrderlyRun(s: State, es: seq<Event>, s': State)
    requires NoDangling(s)
    decreases |es|
  {
    if es == [] then s' == s
    else Legal(s, es[0]) && Orderly(s, es[0]) && (StepFits(s, es[0]); OrderlyRun(Step(s, es[0]), es[1..], s'))
  }

  /** Whenever a wait completed along the run, the waiting surface's indices were alone in the kernel's queues. */
  ghost predicate UnmixedRun(s: State, es: seq<Event>, s': State)
    requires NoDangling(s)
    decreases |es|
  {
    if es == [] then s' == s
    else
      && Legal(s, es[0])
      && (es[0].Resume? && es[0].reply.Completed? ==> WaitFits(s, es[0].a) && Unmixed(s, es[0].a))
      && (StepFits(s, es[0]); UnmixedRun(Step(s, es[0]), es[1..], s'))
  }

  lemma {:induction false} OrderlyRunsAreProper(s: State, es: seq<Event>, s': State)
    requires OwnershipInv(s) && TargetsFit(s) && OrderlyRun(s, es, s')
    ensures ProperRun(s, es, s') && (UnmixedRun(s, es, s') ==> CarefulRun(s, es, s'))
    decreases |es|
  {
    hide Owned, TargetsFit, Step, Orderly;
    if es != [] {
      StepFits(s, es[0]);
      StepTargets(s, es[0]);
      assert Proper(s, es[0]);
      assert es[0].Resume? ==> WaitFits(s, es[0].a);
      StepOwned(s, es[0]);
      OrderlyRunsAreProper(Step(s, es[0]), es[1..], s');
    }
  }

  /** The ownership theorem with nothing asked but the order of calls. */
  lemma OrderlyClientsKeepOwnership(es: seq<Event>, s: State, r: Ref, out: bool)
    requires NoDangling(START) && OrderlyRun(START, es, s) && Known(s, r)
    ensures Partitioned(s, r, out)
  {
    hide Partitioned;
    StartOwned();
    OrderlyRunsAreProper(START, es, s);
    IndicesArePartitioned(es, s, r, out);
  }

  /** The in-flight theorem with nothing asked but the order of calls and what is queued when a wait completes. */
  lemma OrderlyClientsKeepInFlight(es: seq<Event>, s: State)
    requires NoDangling(START) && OrderlyRun(START, es, s) && UnmixedRun(START, es, s)
    ensures QueuedIsTaken(s)
  {
    StartOwned();
    OrderlyRunsAreProper(START, es, s);
    QueuedIsNeverFree(es, s);
  }
}
