/**
Where the code does not meet its promise: the exact condition at the call that fails, and a run of legal calls that
gets there.
*/
module ProtocolLimits {
  import opened Options
  import opened Ownership
  import opened Protocol
  import opened ProtocolOwnership
  import opened ProtocolInFlight

  lemma InFlightParts(s: State)
    requires InFlightInv(s)
    ensures OwnershipInv(s) && NoDangling(s)
  {
  }

  /** The source index is neither free, nor anybody's, nor lost, where its surface's own session counts. */
  lemma ReleasedElsewhere(s: State, c: int, a: int)
    requires OwnershipInv(s) && c in s.contexts && a in s.surfaces && a !in s.waiting && s.surfaces[a].source.Some?
    requires s.surfaces[a].session != Of(c)
    ensures var r, s' := s.surfaces[a].session, Release(s, c, a); Known(s', r) && !Partitioned(s', r, true)
  {
    hide PoolInv, GiveBack, Distinct;
    var u, s' := s.surfaces[a], Release(s, c, a);
    assert SurfaceFits(s, u);
    var r, i := u.session, u.source.value;
    SharesAccounted(s, r, a);
    assert Known(s', r) && At(s', r).output == At(s, r).output;
    var p := At(s, r).output;
    OwnedPool(s, r, true);
    assert p.owner[i] == Held(a);
    forall b | b in s'.surfaces
      ensures Share(s'.surfaces[b], r, true) != Some(i)
    {
      if b != a {
        SharesAccounted(s, r, b);
      }
    }
    assert !HeldBySome(s', r, true, i) && !LostIn(p, i) && i !in p.free && i < p.next;
  }

  ghost predicate AllPartitioned(s: State)
  {
    forall r, out | Known(s, r) :: Partitioned(s, r, out)
  }

  /** Releasing a source buffer into a context's pool keeps every pool's books exactly when it came from that pool. */
  lemma ReleaseExact(s: State, c: int, a: int)
    requires OwnershipInv(s) && c in s.contexts && a in s.surfaces && a !in s.waiting && s.surfaces[a].source.Some?
    ensures AllPartitioned(Release(s, c, a)) <==> s.surfaces[a].session == Of(c)
  {
    hide PoolInv, Release, Partitioned;
    var s' := Release(s, c, a);
    if s.surfaces[a].session == Of(c) {
      ReleaseOwned(s, c, a);
      forall r, out | Known(s', r)
        ensures Partitioned(s', r, out)
      {
        OwnedPartitions(s', r, out);
      }
    } else {
      ReleasedElsewhere(s, c, a);
    }
  }

  /** Giving back an index that is still queued breaks the promise. */
  lemma QueuedGivenBack(s: State, a: int, out: bool)
    requires OwnershipInv(s) && a in s.surfaces && s.surfaces[a].session != Nobody
    requires Known(s, s.surfaces[a].session)
    requires var o := Share(s.surfaces[a], s.surfaces[a].session, out);
      o.Some? && o.value in PoolOf(At(s, s.surfaces[a].session), out).queued
    ensures !QueuedIsTaken(Recycle(s, a))
  {
    hide PoolInv;
    var r, s' := s.surfaces[a].session, Recycle(s, a);
    SharesAccounted(s, r, a);
    OwnedPool(s, r, out);
    var p, i := PoolOf(At(s, r), out), Share(s.surfaces[a], r, out).value;
    assert p.owner[i] == Held(a);
    StackNeverFull(p, i);
    var p' := PoolOf(At(s', r), out);
    assert p' == Give(p, i) && i in p'.queued && i in p'.free;
    assert Known(s', r);
  }

  /** The context's session once the kernel has the surface's CAPTURE buffer. */
  function CaptureQueued(s: State, c: int, a: int): State
    requires c in s.contexts && a in s.surfaces && s.surfaces[a].destination.Some?
  {
    var t := s.contexts[c].session;
    Put(s, Of(c), t.(capture := t.capture.(queued := t.capture.queued + {s.surfaces[a].destination.value})))
  }

  /** A surface whose CAPTURE buffer is queued can be destroyed at once exactly when it is rendering. */
  lemma QueueExact(s: State, c: int, a: int, queued: bool)
    requires InFlightInv(s) && c in s.contexts && a in s.surfaces && a !in s.waiting
    requires s.surfaces[a].session == Of(c) && s.surfaces[a].destination.Some?
    ensures QueuedIsTaken(DestroyStep(CaptureQueued(s, c, a), a, queued)) <==> s.surfaces[a].status == Rendering
  {
    hide InFlightInv, OwnershipInv, QueuedIsTaken, Recycle, Strand, StartSync;
    var s' := CaptureQueued(s, c, a);
    if s.surfaces[a].status == Rendering {
      QueueInFlight(s, c, a, s'.contexts[c].session);
      DestroyInFlight(s', a, queued);
      InFlightPromise(DestroyStep(s', a, queued));
    } else {
      InFlightParts(s);
      SessionOwned(s, c, a, s'.contexts[c].session);
      QueuedGivenBack(s', a, false);
    }
  }

  lemma QueueInFlight(s: State, c: int, a: int, t': Session)
    requires InFlightInv(s) && c in s.contexts && a in s.surfaces && a !in s.waiting
    requires s.surfaces[a].session == Of(c) && s.surfaces[a].destination.Some? && s.surfaces[a].status == Rendering
    requires var t := s.contexts[c].session;
      t' == t.(capture := t.capture.(queued := t.capture.queued + {s.surfaces[a].destination.value}))
    ensures InFlightInv(Put(s, Of(c), t'))
  {
    hide PoolInv, Guarded;
    var r, t, u := Of(c), s.contexts[c].session, s.surfaces[a];
    var s' := Put(s, r, t');
    SessionOwned(s, c, a, t');
    assert Owned(s, r, true) && Owned(s, r, false);
    assert Accounts(t.capture, a, ShareOf(s, a, r, false));
    NoneTaken(t.output);
    GuardedKept(s, s', t.output, t.output);
    QueueGuarded(s, s', t.capture, u.destination, a);
    LocalGuarded(s, s', r, a);
  }

  const NO_BINDS := Binds(false, false, false)

  /** The state after a wait's two dequeues returned these indices. */
  function Dequeued(s: State, a: int, o: nat, k: nat): State
    requires a in s.waiting && a in s.surfaces && Known(s, s.waiting[a].from)
  {
    Arrive(FinishSync(s, a, s.waiting[a].from, Completed(o, k)), a)
  }

  /** After a wait's two dequeues returned these indices, the surface's own may go back to their pools. */
  ghost predicate DequeueIsSafe(s: State, a: int, o: nat, k: nat)
    requires NoDangling(s) && Legal(s, Resume(a, Completed(o, k), NO_BINDS))
  {
    FinishFits(s, a, Completed(o, k));
    var s1 := Dequeued(s, a, o, k);
    assert SurfaceFits(s1, s1.surfaces[a]);
    QueuedIsTaken(Recycle(s1, a))
  }

  lemma SafeWhenReturned(s: State, a: int, o: nat, k: nat)
    requires InFlightInv(s) && Legal(s, Resume(a, Completed(o, k), NO_BINDS)) && WaitFits(s, a)
    requires ReturnsOwn(At(s, s.waiting[a].from), s.surfaces[a], Completed(o, k))
    ensures DequeueIsSafe(s, a, o, k)
  {
    hide InFlightInv, OwnershipInv, QueuedIsTaken, Recycle;
    InFlightParts(s);
    var s1 := Dequeued(s, a, o, k);
    FinishInFlight(s, a, Completed(o, k));
    RecycleInFlight(s1, a);
    InFlightPromise(Recycle(s1, a));
  }

  lemma UnsafeWhenLeft(s: State, a: int, o: nat, k: nat)
    requires InFlightInv(s) && Legal(s, Resume(a, Completed(o, k), NO_BINDS)) && WaitFits(s, a)
    requires !ReturnsOwn(At(s, s.waiting[a].from), s.surfaces[a], Completed(o, k))
    ensures !DequeueIsSafe(s, a, o, k)
  {
    hide InFlightInv, QueuedIsTaken, Recycle;
    InFlightParts(s);
    FinishOwned(s, a, Completed(o, k));
    var s1 := Dequeued(s, a, o, k);
    assert s1.surfaces[a].session == s.waiting[a].from;
    if !OwnReturned(At(s, s.waiting[a].from).output.queued, s.surfaces[a].source, o) {
      QueuedGivenBack(s1, a, true);
    } else {
      QueuedGivenBack(s1, a, false);
    }
  }

  /**
  The dequeues of a wait are safe, whatever indices the kernel returns, exactly when it can return none or the
  surface's own can only be returned for itself.
  */
  lemma DequeueExact(s: State, a: int)
    requires InFlightInv(s) && a in s.waiting
    ensures NoDangling(s) && WaitFits(s, a)
    ensures var t := At(s, s.waiting[a].from);
      (forall o, k | Legal(s, Resume(a, Completed(o, k), NO_BINDS)) :: DequeueIsSafe(s, a, o, k))
      <==> t.output.queued == {} || t.capture.queued == {} || Unmixed(s, a)
  {
    hide InFlightInv, OwnershipInv, DequeueIsSafe;
    InFlightParts(s);
    assert WaitFits(s, a);
    var t, u := At(s, s.waiting[a].from), s.surfaces[a];
    if t.output.queued == {} || t.capture.queued == {} || Unmixed(s, a) {
      forall o, k | Legal(s, Resume(a, Completed(o, k), NO_BINDS))
        ensures DequeueIsSafe(s, a, o, k)
      {
        SafeWhenReturned(s, a, o, k);
      }
    } else {
      var o := AnotherOf(t.output.queued, u.source);
      var k := AnotherOf(t.capture.queued, u.destination);
      assert Legal(s, Resume(a, Completed(o, k), NO_BINDS));
      UnsafeWhenLeft(s, a, o, k);
    }
  }

  lemma AnotherOf(queued: set<nat>, own: Option<nat>) returns (i: nat)
    requires queued != {}
    ensures i in queued && (OwnReturned(queued, own, i) ==> OnlyOwn(queued, own))
  {
    i :| i in queued;
    if !OnlyOwn(queued, own) && i == own.value {
      i :| i in queued && i != own.value;
    }
  }

  // ----- runs of legal calls

  predicate QueuedAndFree(p: Pool, i: nat)
  {
    i in p.queued && i in p.free
  }

  lemma {:induction false} RunThen(s: State, es: seq<Event>, s1: State, e: Event)
    requires NoDangling(s) && NoDangling(s1) && Run(s, es, s1) && Legal(s1, e)
    ensures Run(s, es + [e], Step(s1, e))
    decreases |es|
  {
    hide Step, Legal, NoDangling;
    if es == [] {
      StepFits(s, e);
      assert ([] + [e])[1..] == [];
      assert Run(Step(s, e), [], Step(s, e));
    } else {
      StepFits(s, es[0]);
      RunThen(Step(s, es[0]), es[1..], s1, e);
      assert (es + [e])[0] == es[0] && (es + [e])[1..] == es[1..] + [e];
    }
  }

  ghost predicate Reached(es: seq<Event>, k: nat, s: State)
  {
    k <= |es| && NoDangling(START) && NoDangling(s) && Run(START, es[..k], s)
  }

  lemma AtStart(es: seq<Event>)
    ensures Reached(es, 0, START)
  {
  }

  ghost predicate Moves(s: State, e: Event, s': State)
  {
    NoDangling(s) ==> Legal(s, e) && Step(s, e) == s'
  }

  lemma Then(es: seq<Event>, k: nat, s: State, s': State)
    requires Reached(es, k, s) && k < |es| && Moves(s, es[k], s')
    ensures Reached(es, k + 1, s')
  {
    hide Step, Legal, Run, NoDangling;
    StepFits(s, es[k]);
    RunThen(START, es[..k], s, es[k]);
    assert es[..k] + [es[k]] == es[..k + 1];
  }

  /** The surface a context began is destroyed and its id handed out again before the context's vaEndPicture. */
  const STALE_TARGET: seq<Event> := [
    CreateContext(0, 3, 3),
    CreateSurface(1),
    BeginPicture(0, 1, false, false, false, ALL_BIND),
    DestroySurface(1, false),
    CreateSurface(1),
    EndPicture(0, ALL_BIND, SUBMITTED),
    DestroySurface(1, false)
  ]

  const STALE_1 :=
    State(map[], map[0 := Context(Session(true, false, Granted(3), Granted(3)), None)], CLOSED, map[])

  const STALE_2 :=
    State(map[1 := NEW_SURFACE],
          map[0 := Context(Session(true, false, Granted(3), Granted(3)), None)],
          CLOSED,
          map[])

  const STALE_3 :=
    State(map[1 := Surface(Rendering, Some(0), Some(0), Of(0), false)],
          map[0 := Context(Session(true,
                                   false,
                                   Pool(3, 1, [], {}, map[0 := Held(1)]),
                                   Pool(3, 1, [], {}, map[0 := Held(1)])),
                           Some(1))],
          CLOSED,
          map[])

  const STALE_4 :=
    State(map[],
          map[0 := Context(Session(true,
                                   false,
                                   Pool(3, 1, [], {}, map[0 := Lost]),
                                   Pool(3, 1, [], {}, map[0 := Lost])),
                           Some(1))],
          CLOSED,
          map[])

  const STALE_5 :=
    State(map[1 := NEW_SURFACE],
          map[0 := Context(Session(true,
                                   false,
                                   Pool(3, 1, [], {}, map[0 := Lost]),
                                   Pool(3, 1, [], {}, map[0 := Lost])),
                           Some(1))],
          CLOSED,
          map[])

  const STALE_6 :=
    State(map[1 := Surface(Ready, None, Some(1), Of(0), true)],
          map[0 := Context(Session(true,
                                   true,
                                   Pool(3, 1, [], {}, map[0 := Lost]),
                                   Pool(3, 2, [], {1}, map[0 := Lost, 1 := Held(1)])),
                           Some(1))],
          CLOSED,
          map[])

  const STALE_7 :=
    State(map[],
          map[0 := Context(Session(true,
                                   true,
                                   Pool(3, 1, [], {}, map[0 := Lost]),
                                   Pool(3, 2, [1], {1}, map[0 := Lost, 1 := Free])),
                           Some(1))],
          CLOSED,
          map[])

  lemma StaleCreations()
    ensures Moves(START, STALE_TARGET[0], STALE_1)
    ensures Moves(STALE_1, STALE_TARGET[1], STALE_2)
    ensures Moves(STALE_4, STALE_TARGET[4], STALE_5)
  {
  }

  lemma StaleStep2()
    ensures Moves(STALE_2, STALE_TARGET[2], STALE_3)
  {
    hide EndStep, DestroyStep, ResumeStep, ExportStep;
  }

  lemma StaleStep3()
    ensures Moves(STALE_3, STALE_TARGET[3], STALE_4)
  {
    hide BeginStep, EndStep, ResumeStep, ExportStep;
    if NoDangling(STALE_3) {
      var s, t := Step(STALE_3, STALE_TARGET[3]), STALE_4;
      assert s.surfaces == t.surfaces && s.waiting == t.waiting;
      assert s.contexts.Keys == t.contexts.Keys && s.contexts[0].session.output == t.contexts[0].session.output;
      assert s.contexts[0].session.capture == t.contexts[0].session.capture;
    }
  }

  lemma StaleStep5()
    ensures Moves(STALE_5, STALE_TARGET[5], STALE_6)
  {
    hide BeginStep, DestroyStep, ResumeStep, ExportStep;
    if NoDangling(STALE_5) {
      var s, t := Step(STALE_5, STALE_TARGET[5]), STALE_6;
      assert s.surfaces == t.surfaces && s.waiting == t.waiting;
      assert s.contexts.Keys == t.contexts.Keys && s.contexts[0].session.output == t.contexts[0].session.output;
      assert s.contexts[0].session.capture == t.contexts[0].session.capture;
    }
  }

  lemma StaleStep6()
    ensures Moves(STALE_6, STALE_TARGET[6], STALE_7)
  {
    hide BeginStep, EndStep, ResumeStep, ExportStep;
    if NoDangling(STALE_6) {
      var s, t := Step(STALE_6, STALE_TARGET[6]), STALE_7;
      assert s.surfaces == t.surfaces && s.waiting == t.waiting;
      assert s.contexts.Keys == t.contexts.Keys && s.contexts[0].session.output == t.contexts[0].session.output;
      assert s.contexts[0].session.capture == t.contexts[0].session.capture;
    }
  }

  lemma StaleEnd()
    ensures var s := STALE_7; 0 in s.contexts && QueuedAndFree(s.contexts[0].session.capture, 1)
  {
  }

  /** An index the kernel has queued ends up on the free stack. */
  lemma StaleTargetFreesQueuedIndex()
    ensures NoDangling(START)
    ensures exists s | Run(START, STALE_TARGET, s) ::
      0 in s.contexts && QueuedAndFree(s.contexts[0].session.capture, 1)
  {
    hide Moves, Run, NoDangling;
    var es := STALE_TARGET;
    AtStart(es);
    StaleCreations();
    Then(es, 0, START, STALE_1);
    Then(es, 1, STALE_1, STALE_2);
    StaleStep2();
    Then(es, 2, STALE_2, STALE_3);
    StaleStep3();
    Then(es, 3, STALE_3, STALE_4);
    Then(es, 4, STALE_4, STALE_5);
    StaleStep5();
    Then(es, 5, STALE_5, STALE_6);
    StaleStep6();
    Then(es, 6, STALE_6, STALE_7);
    assert es[..7] == es;
    StaleEnd();
  }

  /** A wait times out; the next one's dequeues return the first one's indices. */
  const OTHER_INDEX_RETURNED: seq<Event> := [
    CreateContext(0, 3, 3),
    CreateSurface(1),
    CreateSurface(2),
    BeginPicture(0, 1, false, false, false, ALL_BIND),
    EndPicture(0, ALL_BIND, SUBMITTED),
    Resume(1, Failed, ALL_BIND),
    BeginPicture(0, 2, false, false, false, ALL_BIND),
    EndPicture(0, ALL_BIND, SUBMITTED),
    Resume(2, Completed(0, 0), ALL_BIND)
  ]

  const SWAPPED_1 :=
    State(map[], map[0 := Context(Session(true, false, Granted(3), Granted(3)), None)], CLOSED, map[])

  const SWAPPED_2 :=
    State(map[1 := NEW_SURFACE],
          map[0 := Context(Session(true, false, Granted(3), Granted(3)), None)],
          CLOSED,
          map[])

  const SWAPPED_3 :=
    State(map[1 := NEW_SURFACE, 2 := NEW_SURFACE],
          map[0 := Context(Session(true, false, Granted(3), Granted(3)), None)],
          CLOSED,
          map[])

  const SWAPPED_4 :=
    State(map[1 := Surface(Rendering, Some(0), Some(0), Of(0), false), 2 := NEW_SURFACE],
          map[0 := Context(Session(true,
                                   false,
                                   Pool(3, 1, [], {}, map[0 := Held(1)]),
                                   Pool(3, 1, [], {}, map[0 := Held(1)])),
                           Some(1))],
          CLOSED,
          map[])

  const SWAPPED_5 :=
    State(map[1 := Surface(Rendering, Some(0), Some(0), Of(0), true), 2 := NEW_SURFACE],
          map[0 := Context(Session(true,
                                   true,
                                   Pool(3, 1, [], {0}, map[0 := Held(1)]),
                                   Pool(3, 1, [], {0}, map[0 := Held(1)])),
                           Some(1))],
          CLOSED,
          map[1 := Wait(Ending(0), Of(0))])

  const SWAPPED_6 :=
    State(map[1 := Surface(Rendering, Some(0), Some(0), Of(0), false), 2 := NEW_SURFACE],
          map[0 := Context(Session(true,
                                   true,
                                   Pool(3, 1, [], {0}, map[0 := Held(1)]),
                                   Pool(3, 1, [], {0}, map[0 := Held(1)])),
                           Some(1))],
          CLOSED,
          map[])

  const SWAPPED_7 :=
    State(map[1 := Surface(Rendering, Some(0), Some(0), Of(0), false),
              2 := Surface(Rendering, Some(1), Some(1), Of(0), false)],
          map[0 := Context(Session(true,
                                   true,
                                   Pool(3, 2, [], {0}, map[0 := Held(1), 1 := Held(2)]),
                                   Pool(3, 2, [], {0}, map[0 := Held(1), 1 := Held(2)])),
                           Some(2))],
          CLOSED,
          map[])

  const SWAPPED_8 :=
    State(map[1 := Surface(Rendering, Some(0), Some(0), Of(0), false),
              2 := Surface(Rendering, Some(1), Some(1), Of(0), true)],
          map[0 := Context(Session(true,
                                   true,
                                   Pool(3, 2, [], {0, 1}, map[0 := Held(1), 1 := Held(2)]),
                                   Pool(3, 2, [], {0, 1}, map[0 := Held(1), 1 := Held(2)])),
                           Some(2))],
          CLOSED,
          map[2 := Wait(Ending(0), Of(0))])

  const SWAPPED_9 :=
    State(map[1 := Surface(Rendering, Some(0), Some(0), Of(0), false),
              2 := Surface(Displaying, None, Some(1), Of(0), true)],
          map[0 := Context(Session(true,
                                   true,
                                   Pool(3, 2, [1], {1}, map[0 := Held(1), 1 := Free]),
                                   Pool(3, 2, [], {1}, map[0 := Held(1), 1 := Held(2)])),
                           None)],
          CLOSED,
          map[])

  lemma SwappedCreations()
    ensures Moves(START, OTHER_INDEX_RETURNED[0], SWAPPED_1)
    ensures Moves(SWAPPED_1, OTHER_INDEX_RETURNED[1], SWAPPED_2)
    ensures Moves(SWAPPED_2, OTHER_INDEX_RETURNED[2], SWAPPED_3)
  {
  }

  lemma SwappedStep3()
    ensures Moves(SWAPPED_3, OTHER_INDEX_RETURNED[3], SWAPPED_4)
  {
    hide EndStep, DestroyStep, ResumeStep, ExportStep;
  }

  lemma SwappedStep4()
    ensures Moves(SWAPPED_4, OTHER_INDEX_RETURNED[4], SWAPPED_5)
  {
    hide BeginStep, DestroyStep, ResumeStep, ExportStep;
    if NoDangling(SWAPPED_4) {
      var s, t := Step(SWAPPED_4, OTHER_INDEX_RETURNED[4]), SWAPPED_5;
      assert s.surfaces == t.surfaces && s.waiting == t.waiting;
      assert s.contexts.Keys == t.contexts.Keys && s.contexts[0].session.output == t.contexts[0].session.output;
      assert s.contexts[0].session.capture == t.contexts[0].session.capture;
    }
  }

  lemma SwappedStep5()
    ensures Moves(SWAPPED_5, OTHER_INDEX_RETURNED[5], SWAPPED_6)
  {
    hide BeginStep, EndStep, DestroyStep, ExportStep;
  }

  lemma SwappedStep6()
    ensures Moves(SWAPPED_6, OTHER_INDEX_RETURNED[6], SWAPPED_7)
  {
    hide EndStep, DestroyStep, ResumeStep, ExportStep;
  }

  lemma SwappedStep7()
    ensures Moves(SWAPPED_7, OTHER_INDEX_RETURNED[7], SWAPPED_8)
  {
    hide BeginStep, DestroyStep, ResumeStep, ExportStep;
    if NoDangling(SWAPPED_7) {
      var s, t := Step(SWAPPED_7, OTHER_INDEX_RETURNED[7]), SWAPPED_8;
      assert s.surfaces == t.surfaces && s.waiting == t.waiting;
      assert s.contexts.Keys == t.contexts.Keys && s.contexts[0].session.output == t.contexts[0].session.output;
      assert s.contexts[0].session.capture == t.contexts[0].session.capture;
    }
  }

  // between the dequeues and the release
  const SWAPPED_DEQUEUED :=
    State(map[1 := Surface(Rendering, Some(0), Some(0), Of(0), false),
              2 := Surface(Displaying, Some(1), Some(1), Of(0), true)],
          map[0 := Context(Session(true,
                                   true,
                                   Pool(3, 2, [], {1}, map[0 := Held(1), 1 := Held(2)]),
                                   Pool(3, 2, [], {1}, map[0 := Held(1), 1 := Held(2)])),
                           Some(2))],
          CLOSED,
          map[])

  lemma SwappedDequeue()
    ensures Arrive(FinishSync(SWAPPED_8, 2, Of(0), Completed(0, 0)), 2) == SWAPPED_DEQUEUED
  {
    var s, t := Arrive(FinishSync(SWAPPED_8, 2, Of(0), Completed(0, 0)), 2), SWAPPED_DEQUEUED;
    assert s.surfaces == t.surfaces && s.waiting == t.waiting;
    assert s.contexts.Keys == t.contexts.Keys && s.contexts[0].session.output == t.contexts[0].session.output;
    assert s.contexts[0].session.capture == t.contexts[0].session.capture;
  }

  lemma SwappedRelease()
    ensures Release(SWAPPED_DEQUEUED, 0, 2) == SWAPPED_9
  {
    var s, t := Release(SWAPPED_DEQUEUED, 0, 2), SWAPPED_9;
    assert s.surfaces == t.surfaces;
    assert s.contexts.Keys == t.contexts.Keys && s.contexts[0].session.output == t.contexts[0].session.output;
  }

  lemma SwappedStep8()
    ensures Moves(SWAPPED_8, OTHER_INDEX_RETURNED[8], SWAPPED_9)
  {
    hide BeginStep, EndStep, DestroyStep, ExportStep, FinishSync, Release;
    SwappedDequeue();
    SwappedRelease();
  }

  lemma SwappedEnd()
    ensures var s := SWAPPED_9; 0 in s.contexts && QueuedAndFree(s.contexts[0].session.output, 1)
  {
  }

  /** Again an index the kernel has queued ends up on the free stack. */
  lemma OtherIndexFreesQueuedIndex()
    ensures NoDangling(START)
    ensures exists s | Run(START, OTHER_INDEX_RETURNED, s) ::
      0 in s.contexts && QueuedAndFree(s.contexts[0].session.output, 1)
  {
    hide Moves, Run, NoDangling;
    var es := OTHER_INDEX_RETURNED;
    AtStart(es);
    SwappedCreations();
    Then(es, 0, START, SWAPPED_1);
    Then(es, 1, SWAPPED_1, SWAPPED_2);
    Then(es, 2, SWAPPED_2, SWAPPED_3);
    SwappedStep3();
    Then(es, 3, SWAPPED_3, SWAPPED_4);
    SwappedStep4();
    Then(es, 4, SWAPPED_4, SWAPPED_5);
    SwappedStep5();
    Then(es, 5, SWAPPED_5, SWAPPED_6);
    SwappedStep6();
    Then(es, 6, SWAPPED_6, SWAPPED_7);
    SwappedStep7();
    Then(es, 7, SWAPPED_7, SWAPPED_8);
    SwappedStep8();
    Then(es, 8, SWAPPED_8, SWAPPED_9);
    assert es[..9] == es;
    SwappedEnd();
  }

  /** A stale render target has meanwhile borrowed from another context. */
  const FOREIGN_TARGET: seq<Event> := [
    CreateContext(0, 3, 3),
    CreateContext(1, 3, 3),
    CreateSurface(5),
    BeginPicture(0, 5, false, false, false, ALL_BIND),
    DestroySurface(5, false),
    CreateSurface(5),
    BeginPicture(1, 5, false, false, false, Binds(true, false, true)),
    Export(5, Of(1), ALL_BIND),
    EndPicture(0, ALL_BIND, SUBMITTED)
  ]

  const FOREIGN_1 :=
    State(map[], map[0 := Context(Session(true, false, Granted(3), Granted(3)), None)], CLOSED, map[])

  const FOREIGN_2 :=
    State(map[],
          map[0 := Context(Session(true, false, Granted(3), Granted(3)), None),
              1 := Context(Session(true, false, Granted(3), Granted(3)), None)],
          CLOSED,
          map[])

  const FOREIGN_3 :=
    State(map[5 := NEW_SURFACE],
          map[0 := Context(Session(true, false, Granted(3), Granted(3)), None),
              1 := Context(Session(true, false, Granted(3), Granted(3)), None)],
          CLOSED,
          map[])

  const FOREIGN_4 :=
    State(map[5 := Surface(Rendering, Some(0), Some(0), Of(0), false)],
          map[0 := Context(Session(true,
                                   false,
                                   Pool(3, 1, [], {}, map[0 := Held(5)]),
                                   Pool(3, 1, [], {}, map[0 := Held(5)])),
                           Some(5)),
              1 := Context(Session(true, false, Granted(3), Granted(3)), None)],
          CLOSED,
          map[])

  const FOREIGN_5 :=
    State(map[],
          map[0 := Context(Session(true,
                                   false,
                                   Pool(3, 1, [], {}, map[0 := Lost]),
                                   Pool(3, 1, [], {}, map[0 := Lost])),
                           Some(5)),
              1 := Context(Session(true, false, Granted(3), Granted(3)), None)],
          CLOSED,
          map[])

  const FOREIGN_6 :=
    State(map[5 := NEW_SURFACE],
          map[0 := Context(Session(true,
                                   false,
                                   Pool(3, 1, [], {}, map[0 := Lost]),
                                   Pool(3, 1, [], {}, map[0 := Lost])),
                           Some(5)),
              1 := Context(Session(true, false, Granted(3), Granted(3)), None)],
          CLOSED,
          map[])

  const FOREIGN_7 :=
    State(map[5 := Surface(Ready, Some(0), None, Of(1), false)],
          map[0 := Context(Session(true,
                                   false,
                                   Pool(3, 1, [], {}, map[0 := Lost]),
                                   Pool(3, 1, [], {}, map[0 := Lost])),
                           Some(5)),
              1 := Context(Session(true, false, Pool(3, 1, [], {}, map[0 := Held(5)]), Granted(3)), None)],
          CLOSED,
          map[])

  const FOREIGN_8 :=
    State(map[5 := Surface(Ready, Some(0), Some(0), Of(1), false)],
          map[0 := Context(Session(true,
                                   false,
                                   Pool(3, 1, [], {}, map[0 := Lost]),
                                   Pool(3, 1, [], {}, map[0 := Lost])),
                           Some(5)),
              1 := Context(Session(true,
                                   false,
                                   Pool(3, 1, [], {}, map[0 := Held(5)]),
                                   Pool(3, 1, [], {}, map[0 := Held(5)])),
                           None)],
          CLOSED,
          map[])

  const FOREIGN_9 :=
    State(map[5 := Surface(Ready, None, Some(0), Of(1), true)],
          map[0 := Context(Session(true,
                                   true,
                                   Pool(3, 1, [0], {0}, map[0 := Free]),
                                   Pool(3, 1, [], {0}, map[0 := Lost])),
                           None),
              1 := Context(Session(true,
                                   false,
                                   Pool(3, 1, [], {}, map[0 := Held(5)]),
                                   Pool(3, 1, [], {}, map[0 := Held(5)])),
                           None)],
          CLOSED,
          map[])

  lemma ForeignCreations()
    ensures Moves(START, FOREIGN_TARGET[0], FOREIGN_1)
    ensures Moves(FOREIGN_1, FOREIGN_TARGET[1], FOREIGN_2)
    ensures Moves(FOREIGN_2, FOREIGN_TARGET[2], FOREIGN_3)
    ensures Moves(FOREIGN_5, FOREIGN_TARGET[5], FOREIGN_6)
  {
  }

  lemma ForeignStep3()
    ensures Moves(FOREIGN_3, FOREIGN_TARGET[3], FOREIGN_4)
  {
    hide EndStep, DestroyStep, ResumeStep, ExportStep;
  }

  lemma ForeignStep4()
    ensures Moves(FOREIGN_4, FOREIGN_TARGET[4], FOREIGN_5)
  {
    hide BeginStep, EndStep, ResumeStep, ExportStep;
    if NoDangling(FOREIGN_4) {
      var s, t := Step(FOREIGN_4, FOREIGN_TARGET[4]), FOREIGN_5;
      assert s.surfaces == t.surfaces;
      assert s.contexts[0] == t.contexts[0] && s.contexts == t.contexts;
    }
  }

  lemma ForeignStep6()
    ensures Moves(FOREIGN_6, FOREIGN_TARGET[6], FOREIGN_7)
  {
    hide EndStep, DestroyStep, ResumeStep, ExportStep;
  }

  lemma ForeignStep7()
    ensures Moves(FOREIGN_7, FOREIGN_TARGET[7], FOREIGN_8)
  {
  }

  /** A target that has its CAPTURE buffer goes straight to the submission. */
  lemma EndOfBound(s: State, c: int, a: int)
    requires NoDangling(s) && c in s.contexts && s.contexts[c].render == Some(a) && s.contexts[c].session.format
    requires a in s.surfaces && s.surfaces[a].destination.Some?
    ensures SurfaceFits(s, s.surfaces[a])
    ensures EndStep(s, c, ALL_BIND, SUBMITTED)
      == SubmitStep(PutSurface(s, a, s.surfaces[a].(request := true)), c, a, SUBMITTED)
  {
    hide SubmitStep;
    assert PutSurface(Put(s, Of(c), s.contexts[c].session), a, s.surfaces[a]) == s;
  }

  lemma ForeignSubmit(s: State)
    requires s == PutSurface(FOREIGN_8, 5, FOREIGN_8.surfaces[5].(request := true))
    ensures SubmitStep(s, 0, 5, SUBMITTED) == FOREIGN_9
  {
    hide StartSync;
    var s', t := SubmitStep(s, 0, 5, SUBMITTED), FOREIGN_9;
    assert s'.surfaces == t.surfaces;
    assert s'.contexts[0].session.output == t.contexts[0].session.output;
    assert s'.contexts[0].session.capture == t.contexts[0].session.capture;
  }

  lemma ForeignStep8()
    ensures Moves(FOREIGN_8, FOREIGN_TARGET[8], FOREIGN_9)
  {
    hide BeginStep, DestroyStep, ResumeStep, ExportStep, SubmitStep, EndStep, PutSurface;
    ForeignSubmit(PutSurface(FOREIGN_8, 5, FOREIGN_8.surfaces[5].(request := true)));
    EndOfBound(FOREIGN_8, 0, 5);
  }

  lemma ForeignEnd()
    ensures var s := FOREIGN_9; Known(s, Of(1)) && !Partitioned(s, Of(1), true)
  {
    var s := FOREIGN_9;
    var p := PoolOf(At(s, Of(1)), true);
    assert 0 < p.next && 0 !in p.free && !LostIn(p, 0) && !HeldBySome(s, Of(1), true, 0);
  }

  /** One context's index goes into the other's pool, and nobody has it in its own. */
  lemma ForeignTargetLosesIndex()
    ensures NoDangling(START)
    ensures exists s :: Run(START, FOREIGN_TARGET, s) && Known(s, Of(1)) && !Partitioned(s, Of(1), true)
  {
    hide Moves, Run, NoDangling;
    var es := FOREIGN_TARGET;
    AtStart(es);
    ForeignCreations();
    Then(es, 0, START, FOREIGN_1);
    Then(es, 1, FOREIGN_1, FOREIGN_2);
    Then(es, 2, FOREIGN_2, FOREIGN_3);
    ForeignStep3();
    Then(es, 3, FOREIGN_3, FOREIGN_4);
    ForeignStep4();
    Then(es, 4, FOREIGN_4, FOREIGN_5);
    Then(es, 5, FOREIGN_5, FOREIGN_6);
    ForeignStep6();
    Then(es, 6, FOREIGN_6, FOREIGN_7);
    ForeignStep7();
    Then(es, 7, FOREIGN_7, FOREIGN_8);
    ForeignStep8();
    Then(es, 8, FOREIGN_8, FOREIGN_9);
    assert es[..9] == es;
    ForeignEnd();
  }
}
