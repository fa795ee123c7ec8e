/**
In-flight safety without a word about what a dequeue returns: while no vaEndPicture fails to queue or to wait, each
context has at most one surface's buffers queued, so the kernel has nothing else to return.
*/
module ProtocolSolo {
  import opened Options
  import opened Ownership
  import opened Protocol
  import opened ProtocolOwnership
  import opened ProtocolInFlight
  import opened ProtocolClients

  predicate Awaits(s: State, c: int, a: int)
  {
    a in s.waiting && s.waiting[a] == Wait(Ending(c), Of(c)) && a in s.surfaces
  }

  /** What the context has queued belongs to a surface whose vaEndPicture is waiting for it. */
  ghost predicate OnlyAwaited(s: State, c: int)
    requires c in s.contexts
  {
    var t := s.contexts[c].session;
    && (forall i | i in t.output.queued :: exists a :: Awaits(s, c, a) && s.surfaces[a].source == Some(i))
    && (forall i | i in t.capture.queued :: exists a :: Awaits(s, c, a) && s.surfaces[a].destination == Some(i))
  }

  ghost predicate OneEnding(s: State)
  {
    forall a, b | a in s.waiting && b in s.waiting ::
      s.waiting[a].rest.Ending? && s.waiting[a].rest == s.waiting[b].rest ==> a == b
  }

  ghost predicate Solo(s: State)
  {
    (forall c | c in s.contexts :: OnlyAwaited(s, c)) && OneEnding(s)
  }

  ghost predicate WaitsKept(s: State, s': State, a: int)
  {
    forall b | b in s.waiting && b != a :: b in s'.waiting && s'.waiting[b] == s.waiting[b]
  }

  predicate NoneMoreQueued(t: Session, t': Session)
  {
    t'.output.queued <= t.output.queued && t'.capture.queued <= t.capture.queued
  }

  /** A step about a surface nobody waits for in vaEndPicture. */
  lemma SoloElsewhere(s: State, s': State, r: Ref, a: int)
    requires Solo(s) && OnlyAt(s, s', r, a) && Known(s, r) && Known(s', r) && WaitsKept(s, s', a)
    requires NoneMoreQueued(At(s, r), At(s', r))
    requires a in s.waiting ==> !s.waiting[a].rest.Ending?
    requires a in s'.waiting ==> !s'.waiting[a].rest.Ending?
    ensures Solo(s')
  {
    forall c | c in s'.contexts
      ensures OnlyAwaited(s', c)
    {
      assert OnlyAwaited(s, c);
      forall b | Awaits(s, c, b)
        ensures Awaits(s', c, b) && s'.surfaces[b] == s.surfaces[b]
      {
      }
    }
  }

  lemma BindAndRenderSolo(s: State, c: int, a: int, av1: bool, binds: Binds)
    requires Solo(s) && c in s.contexts && a in s.surfaces && a !in s.waiting
    ensures Solo(BindAndRender(s, c, a, av1, binds))
  {
    hide BindSource, BindDestination, Solo;
    var t, u, r := s.contexts[c].session, s.surfaces[a], Of(c);
    var x := BindSource(t, u, r, a, binds.mappedSource);
    BindsStay(t, u, r, a, binds);
    BindsStay(x.session, x.surface, r, a, binds);
    SoloElsewhere(s, BindAndRender(s, c, a, av1, binds), r, a);
  }

  lemma RemoveSolo(s: State, a: int)
    requires Solo(s) && a in s.surfaces && a !in s.waiting
    requires s.surfaces[a].session == Nobody || Known(s, s.surfaces[a].session)
    ensures Solo(Recycle(s, a)) && Solo(Strand(s, a))
  {
    hide Solo, GiveBack, Lose;
    var r := if s.surfaces[a].session == Nobody then Probe else s.surfaces[a].session;
    SoloElsewhere(s, Recycle(s, a), r, a);
    SoloElsewhere(s, Strand(s, a), r, a);
  }

  lemma StartSyncSolo(s: State, a: int, queued: bool, rest: Rest)
    requires Solo(s) && a in s.surfaces && a !in s.waiting && !rest.Ending?
    requires s.surfaces[a].session == Nobody || Known(s, s.surfaces[a].session)
    ensures Solo(StartSync(s, a, queued, rest))
  {
    hide Solo;
    SoloElsewhere(s, StartSync(s, a, queued, rest), Probe, a);
  }

  lemma AdoptSolo(s: State, c: int)
    requires Solo(s) && NoDangling(s) && c in s.contexts
    ensures Solo(Adopt(s, c))
  {
    var s' := Adopt(s, c);
    forall d | d in s'.contexts
      ensures OnlyAwaited(s', d)
    {
      assert OnlyAwaited(s, d);
      forall b | Awaits(s, d, b)
        ensures Awaits(s', d, b) && s'.surfaces[b].source == s.surfaces[b].source
        ensures s'.surfaces[b].destination == s.surfaces[b].destination
      {
      }
    }
  }

  lemma BeginSolo(s: State, c: int, a: int, av1: bool, matches: bool, queued: bool, binds: Binds)
    requires Solo(s) && NoDangling(s) && c in s.contexts && a in s.surfaces && a !in s.waiting
    ensures SurfaceFits(s, s.surfaces[a]) && Solo(BeginStep(s, c, a, av1, matches, queued, binds))
  {
    hide BindAndRender, StartSync, Solo;
    assert SurfaceFits(s, s.surfaces[a]);
    var r := s.surfaces[a].session;
    if r == Nobody || r == Of(c) || (r == Probe && MayAdopt(s, c, matches)) {
      var s1 := if r == Probe then Adopt(s, c) else s;
      AdoptSolo(s, c);
      if s1.surfaces[a].status == Rendering {
        StartSyncSolo(s1, a, queued, Beginning(c, av1));
      } else {
        BindAndRenderSolo(s1, c, a, av1, binds);
      }
    }
  }

  lemma ExportSolo(s: State, a: int, via: Ref, binds: Binds)
    requires Solo(s) && NoDangling(s) && a in s.surfaces && a !in s.waiting && Known(s, via)
    ensures SurfaceFits(s, s.surfaces[a]) && Solo(ExportStep(s, a, via, binds))
  {
    hide BindDestination, Solo;
    assert SurfaceFits(s, s.surfaces[a]);
    var r := if s.surfaces[a].session == Nobody then via else s.surfaces[a].session;
    BindsStay(At(s, r), s.surfaces[a], r, a, binds);
    SoloElsewhere(s, ExportStep(s, a, via, binds), r, a);
  }

  lemma DestroySolo(s: State, a: int, queued: bool)
    requires Solo(s) && NoDangling(s) && a in s.surfaces && a !in s.waiting
    ensures SurfaceFits(s, s.surfaces[a]) && Solo(DestroyStep(s, a, queued))
  {
    hide Recycle, Strand, Solo;
    assert SurfaceFits(s, s.surfaces[a]);
    RemoveSolo(s, a);
    if s.surfaces[a].session != Nobody && s.surfaces[a].status == Rendering {
      StartSyncSolo(s, a, queued, Destroying);
      if !SyncWaits(s, a, queued) {
        RemoveSolo(StartSync(s, a, queued, Destroying), a);
      }
    }
  }

  lemma OtherSolo(s: State, e: Event)
    requires Solo(s) && NoDangling(s) && Legal(s, e)
    requires e.CreateSurface? || e.OpenProbe? || e.CreateContext? || e.SwitchBitDepth? || e.DestroyContext?
    ensures Solo(Step(s, e))
  {
    var s' := Step(s, e);
    forall c | c in s'.contexts
      ensures OnlyAwaited(s', c)
    {
      assert c in s.contexts ==> OnlyAwaited(s, c);
      forall b | Awaits(s, c, b)
        ensures Awaits(s', c, b) && (c in s.contexts ==> s'.surfaces[b] == s.surfaces[b])
      {
        assert WaitFits(s, b);
      }
    }
  }

  // ----- vaEndPicture

  /** Nothing is queued on a context no vaEndPicture waits with. */
  lemma QuietIsEmpty(s: State, c: int)
    requires Solo(s) && c in s.contexts && Quiet(s, c)
    ensures s.contexts[c].session.output.queued == {} == s.contexts[c].session.capture.queued
  {
    assert OnlyAwaited(s, c);
  }

  /** What vaEndPicture is not to fail at: the two queueings, the request's, and the wait. */
  predicate Flawless(s: State, e: Event)
  {
    match e
    case EndPicture(_, _, submit) => submit.queuedCapture && submit.queuedOutput && submit.queuedRequest
    case Resume(a, reply, _) => a in s.waiting && s.waiting[a].rest.Ending? ==> reply.Completed?
    case _ => true
  }

  /** A step about the one surface a context's vaEndPicture may be waiting for. */
  lemma SoloAt(s: State, s': State, c: int, a: int)
    requires Solo(s) && OnlyAt(s, s', Of(c), a) && c in s.contexts && WaitsKept(s, s', a)
    requires a in s.waiting ==> s.waiting[a].rest == Ending(c)
    requires OnlyAwaited(s', c) && OneEnding(s')
    ensures Solo(s')
  {
    forall d | d in s'.contexts && d != c
      ensures OnlyAwaited(s', d)
    {
      assert OnlyAwaited(s, d);
      forall b | Awaits(s, d, b)
        ensures Awaits(s', d, b) && s'.surfaces[b] == s.surfaces[b]
      {
      }
    }
  }

  lemma SubmitSolo(s: State, c: int, a: int, submit: Submit)
    requires Solo(s) && c in s.contexts && Quiet(s, c) && a in s.surfaces && a !in s.waiting
    requires Renders(s.surfaces[a], Of(c)) && s.surfaces[a].destination.Some? && s.surfaces[a].request
    requires s.contexts[c].session.format
    requires submit.queuedCapture && submit.queuedOutput && submit.queuedRequest
    ensures Solo(SubmitStep(s, c, a, submit))
  {
    var s' := SubmitStep(s, c, a, submit);
    QuietIsEmpty(s, c);
    var t := s'.contexts[c].session;
    if a in s'.waiting {
      assert Awaits(s', c, a);
      assert t.output.queued == {s.surfaces[a].source.value} && t.capture.queued == {s.surfaces[a].destination.value};
    } else {
      assert t.output.queued == {} == t.capture.queued;
    }
    SoloAt(s, s', c, a);
  }

  lemma EndSolo(s: State, c: int, binds: Binds, submit: Submit)
    requires Solo(s) && NoDangling(s) && TargetsFit(s)
    requires Legal(s, EndPicture(c, binds, submit)) && Flawless(s, EndPicture(c, binds, submit))
    ensures Solo(EndStep(s, c, binds, submit))
  {
    hide SubmitStep, BindDestination, TargetsFit, Solo;
    var x := s.contexts[c];
    if x.render.Some? && x.render.value in s.surfaces && x.session.format {
      var a := x.render.value;
      var u := s.surfaces[a];
      assert SurfaceFits(s, u);
      hide NoDangling;
      TargetIsFit(s, c);
      BindsStay(x.session, u, Of(c), a, binds);
      var y := if u.destination == None
               then BindDestination(x.session, u, Of(c), a, binds.sized, binds.mappedDestination)
               else Bound(x.session, u, true);
      var s1 := PutSurface(Put(s, Of(c), y.session), a, y.surface);
      SoloElsewhere(s, s1, Of(c), a);
      if y.ok {
        var s2 := PutSurface(s1, a, y.surface.(request := true));
        SoloElsewhere(s1, s2, Of(c), a);
        SubmitSolo(s2, c, a, submit);
      }
    }
  }

  // ----- the wait

  /** The awaited surface's indices are alone in their queues, which its dequeues empty. */
  lemma AwaitedIsAlone(s: State, c: int, a: int)
    requires Solo(s) && c in s.contexts && Awaits(s, c, a)
    ensures var t, u := s.contexts[c].session, s.surfaces[a];
      && (forall i | i in t.output.queued :: u.source == Some(i))
      && (forall i | i in t.capture.queued :: u.destination == Some(i))
  {
    assert OnlyAwaited(s, c);
  }

  lemma EndedSolo(s: State, a: int, reply: Reply, binds: Binds)
    requires Solo(s) && OwnershipInv(s) && Legal(s, Resume(a, reply, binds))
    requires s.waiting[a].rest.Ending? && reply.Completed?
    ensures Solo(ResumeStep(s, a, reply, binds))
  {
    hide Owned, GiveBack;
    assert WaitFits(s, a) && SurfaceFits(s, s.surfaces[a]);
    var c, s' := s.waiting[a].rest.context, ResumeStep(s, a, reply, binds);
    assert s.waiting[a].from == Of(c);
    AwaitedIsAlone(s, c, a);
    var t := s'.contexts[c].session;
    assert t.output.queued == {} == t.capture.queued;
    SoloAt(s, s', c, a);
  }

  lemma ResumeSolo(s: State, a: int, reply: Reply, binds: Binds)
    requires Solo(s) && OwnershipInv(s) && Legal(s, Resume(a, reply, binds)) && Flawless(s, Resume(a, reply, binds))
    ensures Solo(ResumeStep(s, a, reply, binds))
  {
    hide Owned, Recycle, Strand, BindAndRender, Release, Solo;
    assert WaitFits(s, a) && SurfaceFits(s, s.surfaces[a]);
    if s.waiting[a].rest.Ending? {
      EndedSolo(s, a, reply, binds);
    } else {
      FinishFits(s, a, reply);
      var s1 := Arrive(FinishSync(s, a, s.waiting[a].from, reply), a);
      SoloElsewhere(s, s1, s.waiting[a].from, a);
      match s.waiting[a].rest
      case Syncing =>
      case Destroying =>
        assert SurfaceFits(s1, s1.surfaces[a]);
        RemoveSolo(s1, a);
      case Beginning(c, av1) => BindAndRenderSolo(s1, c, a, av1, binds);
    }
  }

  lemma StepSolo(s: State, e: Event)
    requires Solo(s) && OwnershipInv(s) && TargetsFit(s) && Legal(s, e) && Flawless(s, e)
    ensures Solo(Step(s, e))
  {
    hide ExportStep, BeginStep, EndStep, DestroyStep, ResumeStep, StartSync, Owned, TargetsFit, Solo;
    match e
    case Export(a, via, binds) => ExportSolo(s, a, via, binds);
    case BeginPicture(c, a, av1, matches, queued, binds) => BeginSolo(s, c, a, av1, matches, queued, binds);
    case EndPicture(c, binds, submit) => EndSolo(s, c, binds, submit);
    case SyncSurface(a, queued) =>
      if s.surfaces[a].status == Rendering {
        OwnedFits(s, a);
        StartSyncSolo(s, a, queued, Syncing);
      }
    case DestroySurface(a, queued) => DestroySolo(s, a, queued);
    case Resume(a, reply, binds) => ResumeSolo(s, a, reply, binds);
    case _ => OtherSolo(s, e);
  }

  /** A surface whose indices are queued is the one its context awaits, so they are alone. */
  lemma SoloIsUnmixed(s: State, a: int)
    requires Solo(s) && OwnershipInv(s) && a in s.waiting
    ensures WaitFits(s, a) && Unmixed(s, a)
  {
    hide PoolInv;
    assert NoDangling(s);
    assert WaitFits(s, a);
    var from, u := s.waiting[a].from, s.surfaces[a];
    if from.Of? {
      var c := from.context;
      var t := s.contexts[c].session;
      assert OnlyAwaited(s, c) && Owned(s, from, true) && Owned(s, from, false);
      if u.source.Some? && u.source.value in t.output.queued {
        var b :| Awaits(s, c, b) && s.surfaces[b].source == u.source;
        SameHolder(s, from, a, b, true);
        AwaitedIsAlone(s, c, a);
      }
      if u.destination.Some? && u.destination.value in t.capture.queued {
        var b :| Awaits(s, c, b) && s.surfaces[b].destination == u.destination;
        SameHolder(s, from, a, b, false);
        AwaitedIsAlone(s, c, a);
      }
    }
  }

  lemma SameHolder(s: State, r: Ref, a: int, b: int, out: bool)
    requires OwnershipInv(s) && Known(s, r) && a in s.surfaces && b in s.surfaces
    requires Share(s.surfaces[a], r, out).Some? && Share(s.surfaces[a], r, out) == Share(s.surfaces[b], r, out)
    ensures a == b
  {
    hide PoolInv;
    assert Owned(s, r, out);
    OwnedPartitions(s, r, out);
  }

  ghost predicate FlawlessRun(s: State, es: seq<Event>, s': State)
    requires NoDangling(s)
    decreases |es|
  {
    if es == [] then s' == s
    else Legal(s, es[0]) && Flawless(s, es[0]) && (StepFits(s, es[0]); FlawlessRun(Step(s, es[0]), es[1..], s'))
  }

  lemma {:induction false} FlawlessRunsAreUnmixed(s: State, es: seq<Event>, s': State)
    requires OwnershipInv(s) && TargetsFit(s) && Solo(s) && OrderlyRun(s, es, s') && FlawlessRun(s, es, s')
    ensures UnmixedRun(s, es, s')
    decreases |es|
  {
    hide Owned, TargetsFit, Step, Orderly, Solo, Unmixed, Flawless;
    if es != [] {
      StepFits(s, es[0]);
      if es[0].Resume? {
        SoloIsUnmixed(s, es[0].a);
      }
      StepTargets(s, es[0]);
      assert Proper(s, es[0]);
      StepOwned(s, es[0]);
      StepSolo(s, es[0]);
      FlawlessRunsAreUnmixed(Step(s, es[0]), es[1..], s');
    }
  }

  /**
  The main result: with nothing asked but the order of calls, and as long as no vaEndPicture fails to queue or to
  wait, no index the kernel has queued can be handed out again, whatever the dequeues may return.
  */
  lemma OrderlyClientsAreSafe(es: seq<Event>, s: State)
    requires NoDangling(START) && OrderlyRun(START, es, s) && FlawlessRun(START, es, s)
    ensures QueuedIsTaken(s)
  {
    StartOwned();
    FlawlessRunsAreUnmixed(START, es, s);
    OrderlyClientsKeepInFlight(es, s);
  }
}
