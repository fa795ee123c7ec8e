/**
The driver's entry points as atomic steps between lock points (surface.c, picture.c, context.c). Every entry point
runs under one lock, dropped only while a decode is waited for, so a call that waits is two steps: the surface is
listed in `waiting` with the rest of the call that is still to be done.
*/
module Protocol {
  import opened Options
  import opened Ownership

  datatype Context = Context(session: Session, render: Option<int>)

  /** The call that waits, and what it does once the lock is back. */
  datatype Rest = Syncing | Destroying | Beginning(context: int, av1: bool) | Ending(context: int)

  /** `from` is the session pointer the waiting call read before it dropped the lock. */
  datatype Wait = Wait(rest: Rest, from: Ref)

  datatype State = State(surfaces: map<int, Surface>, contexts: map<int, Context>, probe: Session,
                         waiting: map<int, Wait>)

  const START := State(map[], map[], CLOSED, map[])

  /** What the kernel answers after the lock is back: which indices the two dequeues, if reached, returned. */
  datatype Reply = Failed | OutputOnly(output: nat) | Completed(output: nat, capture: nat)

  datatype Binds = Binds(mappedSource: bool, sized: bool, mappedDestination: bool)

  datatype Submit = Submit(request: bool, started: bool, controls: bool,
                           queuedCapture: bool, queuedOutput: bool, queuedRequest: bool)

  // every step of a call succeeds
  const ALL_BIND := Binds(true, true, true)
  const SUBMITTED := Submit(true, true, true, true, true, true)

  datatype Event =
    | CreateSurface(a: int)
    | OpenProbe(format: bool, outputs: nat, captures: nat)
    | CreateContext(c: int, outputs: nat, captures: nat)
    | DestroyContext(c: int)
    | Export(a: int, via: Ref, binds: Binds)
    | BeginPicture(c: int, a: int, av1: bool, matches: bool, queued: bool, binds: Binds)
    | SwitchBitDepth(c: int, format: bool, captures: nat)
    | EndPicture(c: int, binds: Binds, submit: Submit)
    | SyncSurface(a: int, queued: bool)
    | DestroySurface(a: int, queued: bool)
    | Resume(a: int, reply: Reply, binds: Binds)

  predicate Known(s: State, r: Ref)
  {
    r == Probe || (r.Of? && r.context in s.contexts)
  }

  function At(s: State, r: Ref): Session
    requires Known(s, r)
  {
    if r == Probe then s.probe else s.contexts[r.context].session
  }

  function Put(s: State, r: Ref, t: Session): State
    requires Known(s, r)
  {
    if r == Probe then s.(probe := t)
    else s.(contexts := s.contexts[r.context := s.contexts[r.context].(session := t)])
  }

  function PutSurface(s: State, a: int, u: Surface): State
  {
    s.(surfaces := s.surfaces[a := u])
  }

  function SetRender(s: State, c: int, r: Option<int>): State
    requires c in s.contexts
  {
    s.(contexts := s.contexts[c := s.contexts[c].(render := r)])
  }

  function Remove(s: State, a: int): State
  {
    s.(surfaces := map b | b in s.surfaces && b != a :: s.surfaces[b])
  }

  function Arrive(s: State, a: int): State
  {
    s.(waiting := map b | b in s.waiting && b != a :: s.waiting[b])
  }

  function MoveSession(u: Surface, from: Ref, to: Ref): Surface
  {
    if u.session == from then u.(session := to) else u
  }

  function DetachFrom(u: Surface, r: Ref): Surface
  {
    if u.session == r then u.(source := None, destination := None, session := Nobody) else u
  }

  /** context_adopt_probe_session, where every test passed: the pool, the handles and every borrower move. */
  function Adopt(s: State, c: int): State
    requires c in s.contexts
  {
    State(map b | b in s.surfaces :: MoveSession(s.surfaces[b], Probe, Of(c)),
          s.contexts[c := s.contexts[c].(session := s.probe)], CLOSED, s.waiting)
  }

  predicate MayAdopt(s: State, c: int, matches: bool)
    requires c in s.contexts
  {
    var t := s.contexts[c].session;
    !t.streaming && t.output.next == 0 && t.capture.next == 0
    && s.probe.format && s.probe.capture.granted > 0 && matches
  }

  /** The part of RequestSyncSurface before the unlock, on a surface that is rendering; `rest` is its caller. */
  function StartSync(s: State, a: int, queued: bool, rest: Rest): State
    requires a in s.surfaces && (s.surfaces[a].session == Nobody || Known(s, s.surfaces[a].session))
  {
    var u := s.surfaces[a];
    if u.session == Nobody || !At(s, u.session).format then s
    else if !u.request then s
    else if !queued then PutSurface(s, a, u.(request := false))
    else s.(waiting := s.waiting[a := Wait(rest, u.session)])
  }

  predicate SyncWaits(s: State, a: int, queued: bool)
    requires a in s.surfaces && (s.surfaces[a].session == Nobody || Known(s, s.surfaces[a].session))
  {
    var u := s.surfaces[a];
    u.session != Nobody && At(s, u.session).format && u.request && queued
  }

  /** The part after the lock is back: the dequeues that were reached, and the surface's status. */
  function FinishSync(s: State, a: int, from: Ref, reply: Reply): State
    requires a in s.surfaces && Known(s, from)
  {
    var u, t := s.surfaces[a], At(s, from);
    match reply
    case Failed => PutSurface(s, a, u.(request := false))
    case OutputOnly(o) =>
      PutSurface(Put(s, from, t.(output := t.output.(queued := t.output.queued - {o}))), a, u.(request := false))
    case Completed(o, k) =>
      var t' := t.(output := t.output.(queued := t.output.queued - {o}),
                   capture := t.capture.(queued := t.capture.queued - {k}));
      PutSurface(Put(s, from, t'), a, u.(status := Displaying))
  }

  /** surface_release_buffers where the surface is not, or no longer, rendering; then the surface's own end. */
  function Recycle(s: State, a: int): State
    requires a in s.surfaces && (s.surfaces[a].session == Nobody || Known(s, s.surfaces[a].session))
  {
    var u := s.surfaces[a];
    if u.session == Nobody then Remove(s, a)
    else
      var t := At(s, u.session);
      var t' := t.(output := GiveBack(t.output, u.source), capture := GiveBack(t.capture, u.destination));
      Remove(Put(s, u.session, t'), a)
  }

  /** The surface goes although it could not be waited for: its indices go with it. */
  function Strand(s: State, a: int): State
    requires a in s.surfaces && (s.surfaces[a].session == Nobody || Known(s, s.surfaces[a].session))
  {
    var u := s.surfaces[a];
    if u.session == Nobody then Remove(s, a)
    else
      var t := At(s, u.session);
      Remove(Put(s, u.session, t.(output := Lose(t.output, u.source), capture := Lose(t.capture, u.destination))), a)
  }

  /** The end of RequestBeginPicture: bind what is missing and mark the surface as the render target. */
  function BindAndRender(s: State, c: int, a: int, av1: bool, binds: Binds): State
    requires c in s.contexts && a in s.surfaces
  {
    var x := BindSource(s.contexts[c].session, s.surfaces[a], Of(c), a, binds.mappedSource);
    var s1 := PutSurface(Put(s, Of(c), x.session), a, x.surface);
    if !x.ok then s1
    else if av1 then SetRender(PutSurface(s1, a, x.surface.(status := Rendering)), c, Some(a))
    else
      var y := BindDestination(x.session, x.surface, Of(c), a, binds.sized, binds.mappedDestination);
      var s2 := PutSurface(Put(s1, Of(c), y.session), a, y.surface);
      if !y.ok then s2
      else SetRender(PutSurface(s2, a, y.surface.(status := Rendering)), c, Some(a))
  }

  /** Queue the CAPTURE buffer, then the OUTPUT buffer; the kernel refuses an index the surface does not have. */
  function QueueBoth(t: Session, u: Surface, submit: Submit): (Session, bool)
  {
    if u.destination == None || !submit.queuedCapture then (t, false)
    else
      var t1 := t.(capture := t.capture.(queued := t.capture.queued + {u.destination.value}));
      if u.source == None || !submit.queuedOutput then (t1, false)
      else (t1.(output := t.output.(queued := t.output.queued + {u.source.value})), true)
  }

  /** release_source_buffer on the context's session, whatever session the surface has. */
  function Release(s: State, c: int, a: int): State
    requires c in s.contexts && a in s.surfaces
  {
    var (t, u) := ReleaseSource(s.contexts[c].session, s.surfaces[a]);
    SetRender(PutSurface(Put(s, Of(c), t), a, u), c, None)
  }

  /** RequestEndPicture once its render target has a CAPTURE buffer and a request. */
  function SubmitStep(s: State, c: int, a: int, submit: Submit): State
    requires c in s.contexts && a in s.surfaces
    requires s.surfaces[a].session == Nobody || Known(s, s.surfaces[a].session)
  {
    var t := s.contexts[c].session;
    if !t.streaming && !submit.started then s
    else if !submit.controls then Put(s, Of(c), t.(streaming := true))
    else
      var (t', both) := QueueBoth(t.(streaming := true), s.surfaces[a], submit);
      var s' := Put(s, Of(c), t');
      if !both then s'
      else if s.surfaces[a].status == Rendering then StartSync(s', a, submit.queuedRequest, Ending(c))
      else Release(s', c, a)
  }

  function EndStep(s: State, c: int, binds: Binds, submit: Submit): State
    requires c in s.contexts
    requires forall a | a in s.surfaces :: s.surfaces[a].session == Nobody || Known(s, s.surfaces[a].session)
  {
    var x := s.contexts[c];
    if x.render == None || x.render.value !in s.surfaces || !x.session.format then s
    else
      var a := x.render.value;
      var y := if s.surfaces[a].destination == None
               then BindDestination(x.session, s.surfaces[a], Of(c), a, binds.sized, binds.mappedDestination)
               else Bound(x.session, s.surfaces[a], true);
      var s1 := PutSurface(Put(s, Of(c), y.session), a, y.surface);
      assert s.surfaces[a].session == Nobody || Known(s, s.surfaces[a].session);
      if !y.ok || (!y.surface.request && !submit.request) then s1
      else SubmitStep(PutSurface(s1, a, y.surface.(request := true)), c, a, submit)
  }

  function BeginStep(s: State, c: int, a: int, av1: bool, matches: bool, queued: bool, binds: Binds): State
    requires c in s.contexts && a in s.surfaces
    requires s.surfaces[a].session == Nobody || Known(s, s.surfaces[a].session)
  {
    var r := s.surfaces[a].session;
    if r == Nobody || r == Of(c) then BeginAdopted(s, c, a, av1, queued, binds)
    else if r != Probe || !MayAdopt(s, c, matches) then s
    else BeginAdopted(Adopt(s, c), c, a, av1, queued, binds)
  }

  function BeginAdopted(s: State, c: int, a: int, av1: bool, queued: bool, binds: Binds): State
    requires c in s.contexts && a in s.surfaces
    requires s.surfaces[a].session == Nobody || Known(s, s.surfaces[a].session)
  {
    if s.surfaces[a].status == Rendering then StartSync(s, a, queued, Beginning(c, av1))
    else BindAndRender(s, c, a, av1, binds)
  }

  function DestroyStep(s: State, a: int, queued: bool): State
    requires a in s.surfaces && (s.surfaces[a].session == Nobody || Known(s, s.surfaces[a].session))
  {
    if s.surfaces[a].session == Nobody || s.surfaces[a].status != Rendering then Recycle(s, a)
    else if SyncWaits(s, a, queued) then StartSync(s, a, queued, Destroying)
    else Strand(StartSync(s, a, queued, Destroying), a)
  }

  function ExportStep(s: State, a: int, via: Ref, binds: Binds): State
    requires a in s.surfaces && (s.surfaces[a].session == Nobody || Known(s, s.surfaces[a].session)) && Known(s, via)
  {
    var r := if s.surfaces[a].session == Nobody then via else s.surfaces[a].session;
    var t := At(s, r);
    if !t.format || s.surfaces[a].destination.Some? then s
    else
      var y := BindDestination(t, s.surfaces[a], r, a, binds.sized, binds.mappedDestination);
      PutSurface(Put(s, r, y.session), a, y.surface)
  }

  function ResumeStep(s: State, a: int, reply: Reply, binds: Binds): State
    requires NoDangling(s) && a in s.waiting
  {
    assert WaitFits(s, a) && SurfaceFits(s, s.surfaces[a]);
    var w := s.waiting[a];
    var s1 := Arrive(FinishSync(s, a, w.from, reply), a);
    match w.rest
    case Syncing => s1
    case Destroying => if reply.Completed? then Recycle(s1, a) else Strand(s1, a)
    case Beginning(c, av1) => if reply.Completed? then BindAndRender(s1, c, a, av1, binds) else s1
    case Ending(c) => if reply.Completed? then Release(s1, c, a) else s1
  }

  // ----- every pointer names something that is there

  function PoolOf(t: Session, out: bool): Pool
  {
    if out then t.output else t.capture
  }

  ghost predicate NoDangling(s: State)
  {
    && (forall a | a in s.surfaces :: SurfaceFits(s, s.surfaces[a]))
    && (forall a | a in s.waiting :: WaitFits(s, a))
    && s.probe.output.queued == {} == s.probe.capture.queued
  }

  /** A surface's session is none, the probe session, or that of a live context; without one it holds no index. */
  ghost predicate SurfaceFits(s: State, u: Surface)
  {
    if u.session == Nobody then u.source == None && u.destination == None
    else Known(s, u.session) && (u.session == Probe ==> s.probe.format)
  }

  /** A waiting call finds its surface, its context and its session where it left them, or, for one that waits on
      the probe session, finds nothing queued there. */
  ghost predicate WaitFits(s: State, a: int)
    requires a in s.waiting
  {
    var w := s.waiting[a];
    && a in s.surfaces && s.surfaces[a].status == Rendering
    && Known(s, w.from) && (w.from.Of? ==> s.surfaces[a].session == w.from)
    && (w.rest.Beginning? ==> w.from == Of(w.rest.context))
    && (w.rest.Ending? ==> w.rest.context in s.contexts)
  }

  predicate Names(rest: Rest, c: int)
  {
    (rest.Ending? || rest.Beginning?) && rest.context == c
  }

  /** No call that waits for the lock names this context. */
  predicate Quiet(s: State, c: int)
  {
    forall a | a in s.waiting :: !Names(s.waiting[a].rest, c)
  }

  /**
  What the kernel may answer and what a client may call: a surface or context that another call is waiting with is
  not named, ids are not in use when handed out, REQBUFS grants between 3 and 64 buffers, and a dequeue that
  succeeds returns some index that was queued.
  */
  predicate Legal(s: State, e: Event)
  {
    match e
    case CreateSurface(a) => a !in s.surfaces
    case OpenProbe(format, m, n) => !s.probe.format && m <= MAX_BUFFERS && n <= MAX_BUFFERS && (!format ==> m == n == 0)
    case CreateContext(c, m, n) => c !in s.contexts && 3 <= m <= MAX_BUFFERS && 3 <= n <= MAX_BUFFERS
    case DestroyContext(c) =>
      c in s.contexts && Quiet(s, c)
      && forall a | a in s.waiting :: s.waiting[a].from != Of(c)
    case Export(a, via, _) => a in s.surfaces && a !in s.waiting && Known(s, via)
    case BeginPicture(c, a, _, _, _, _) => c in s.contexts && Quiet(s, c) && a in s.surfaces && a !in s.waiting
    case SwitchBitDepth(c, format, n) =>
      c in s.contexts && Quiet(s, c) && n <= MAX_BUFFERS && (!format ==> n == 0)
      && var t := s.contexts[c].session; t.format && !t.streaming && t.capture.next == 0 && t.capture.free == []
    case EndPicture(c, binds, submit) =>
      c in s.contexts && Quiet(s, c)
      && (s.contexts[c].render.Some? ==> s.contexts[c].render.value !in s.waiting)
    case SyncSurface(a, _) => a in s.surfaces && a !in s.waiting
    case DestroySurface(a, _) => a in s.surfaces && a !in s.waiting
    case Resume(a, reply, _) =>
      a in s.waiting && Known(s, s.waiting[a].from)
      && var t := At(s, s.waiting[a].from);
      && (reply.OutputOnly? || reply.Completed? ==> reply.output in t.output.queued)
      && (reply.Completed? ==> reply.capture in t.capture.queued)
  }

  function Step(s: State, e: Event): State
    requires NoDangling(s) && Legal(s, e)
  {
    match e
    case CreateSurface(a) => PutSurface(s, a, NEW_SURFACE)
    case OpenProbe(format, m, n) => s.(probe := Session(format, false, Granted(m), Granted(n)))
    case CreateContext(c, m, n) =>
      s.(contexts := s.contexts[c := Context(Session(true, false, Granted(m), Granted(n)), None)])
    case DestroyContext(c) =>
      s.(surfaces := map b | b in s.surfaces :: DetachFrom(s.surfaces[b], Of(c)),
         contexts := map d | d in s.contexts && d != c :: s.contexts[d])
    case Export(a, via, binds) => ExportStep(s, a, via, binds)
    case BeginPicture(c, a, av1, matches, queued, binds) => BeginStep(s, c, a, av1, matches, queued, binds)
    case SwitchBitDepth(c, format, n) =>
      Put(s, Of(c), s.contexts[c].session.(format := format, capture := Granted(n)))
    case EndPicture(c, binds, submit) => EndStep(s, c, binds, submit)
    case SyncSurface(a, queued) =>
      if s.surfaces[a].status == Rendering then StartSync(s, a, queued, Syncing) else s
    case DestroySurface(a, queued) => DestroyStep(s, a, queued)
    case Resume(a, reply, binds) => ResumeStep(s, a, reply, binds)
  }

  // ----- no dangling sessions, over every run

  /** s' differs from s at most in surface a, in the session r, and in render targets. */
  ghost predicate OnlyAt(s: State, s': State, r: Ref, a: int)
  {
    && (forall b :: b != a ==>
          (b in s.surfaces <==> b in s'.surfaces) && (b in s.surfaces ==> s.surfaces[b] == s'.surfaces[b]))
    && (forall c :: c in s.contexts <==> c in s'.contexts)
    && (forall c | c in s.contexts :: r != Of(c) ==> s.contexts[c].session == s'.contexts[c].session)
    && (r != Probe ==> s.probe == s'.probe)
    && (forall b :: b != a && b in s'.waiting ==> b in s.waiting && s'.waiting[b] == s.waiting[b])
  }

  lemma LocalFits(s: State, s': State, r: Ref, a: int)
    requires NoDangling(s) && OnlyAt(s, s', r, a) && Known(s, r)
    requires At(s, r).format ==> At(s', r).format
    requires r == Probe ==> At(s', r).output.queued == {} == At(s', r).capture.queued
    requires a in s'.surfaces ==> SurfaceFits(s', s'.surfaces[a])
    requires a in s'.waiting ==> WaitFits(s', a)
    ensures NoDangling(s')
  {
  }

  lemma StartSyncFits(s: State, a: int, queued: bool, rest: Rest)
    requires NoDangling(s) && a in s.surfaces && a !in s.waiting && s.surfaces[a].status == Rendering
    requires rest.Beginning? ==> s.surfaces[a].session in {Nobody, Of(rest.context)}
    requires rest.Ending? ==> rest.context in s.contexts
    ensures NoDangling(StartSync(s, a, queued, rest))
  {
  }

  predicate SameQueues(t: Session, t': Session)
  {
    t'.output.queued == t.output.queued && t'.capture.queued == t.capture.queued
  }

  lemma BindsStay(t: Session, u: Surface, r: Ref, a: int, binds: Binds)
    ensures var x := BindSource(t, u, r, a, binds.mappedSource);
      x.session.format == t.format && x.surface.status == u.status && x.session.streaming == t.streaming
      && SameQueues(t, x.session)
      && (x.surface == u || (u.session in {Nobody, r} && x.surface.session == r))
      && (x.ok ==> x.surface.session == r && x.surface.source.Some?)
    ensures var y := BindDestination(t, u, r, a, binds.sized, binds.mappedDestination);
      y.session.format == t.format && y.surface.status == u.status && y.session.streaming == t.streaming
      && SameQueues(t, y.session)
      && (y.surface == u || (u.session in {Nobody, r} && y.surface.session == r))
      && (y.ok ==> y.surface.session == r && y.surface.destination.Some?) && y.surface.source == u.source
  {
    hide Take, Give, Exhausted;
  }

  lemma BindAndRenderFits(s: State, c: int, a: int, av1: bool, binds: Binds)
    requires NoDangling(s) && c in s.contexts && a in s.surfaces && a !in s.waiting
    requires s.surfaces[a].session in {Nobody, Of(c)}
    ensures NoDangling(BindAndRender(s, c, a, av1, binds))
  {
    hide BindSource, BindDestination;
    assert SurfaceFits(s, s.surfaces[a]);
    var t, u := s.contexts[c].session, s.surfaces[a];
    var x := BindSource(t, u, Of(c), a, binds.mappedSource);
    BindsStay(t, u, Of(c), a, binds);
    BindsStay(x.session, x.surface, Of(c), a, binds);
    LocalFits(s, BindAndRender(s, c, a, av1, binds), Of(c), a);
  }

  lemma ReleaseFits(s: State, c: int, a: int)
    requires NoDangling(s) && c in s.contexts && a in s.surfaces && a !in s.waiting
    ensures NoDangling(Release(s, c, a))
  {
  }

  lemma RecycleFits(s: State, a: int)
    requires NoDangling(s) && a in s.surfaces && a !in s.waiting
    ensures NoDangling(Recycle(s, a)) && NoDangling(Strand(s, a))
  {
  }

  lemma AdoptFits(s: State, c: int)
    requires NoDangling(s) && c in s.contexts
    ensures NoDangling(Adopt(s, c))
    ensures forall a | a in s.surfaces :: s.surfaces[a].session in {Nobody, Of(c), Probe} ==>
      Adopt(s, c).surfaces[a].session in {Nobody, Of(c)}
  {
  }

  lemma BeginFits(s: State, c: int, a: int, av1: bool, matches: bool, queued: bool, binds: Binds)
    requires NoDangling(s) && c in s.contexts && a in s.surfaces && a !in s.waiting
    ensures SurfaceFits(s, s.surfaces[a]) && NoDangling(BeginStep(s, c, a, av1, matches, queued, binds))
  {
    hide BindAndRender, StartSync;
    assert SurfaceFits(s, s.surfaces[a]);
    var r := s.surfaces[a].session;
    if r == Nobody || r == Of(c) || (r == Probe && MayAdopt(s, c, matches)) {
      var s1 := if r == Probe then Adopt(s, c) else s;
      AdoptFits(s, c);
      if s1.surfaces[a].status == Rendering {
        StartSyncFits(s1, a, queued, Beginning(c, av1));
      } else {
        BindAndRenderFits(s1, c, a, av1, binds);
      }
    }
  }

  lemma SubmitFits(s: State, c: int, a: int, submit: Submit)
    requires NoDangling(s) && c in s.contexts && a in s.surfaces && a !in s.waiting
    ensures SurfaceFits(s, s.surfaces[a]) && NoDangling(SubmitStep(s, c, a, submit))
  {
    hide StartSync, Release;
    assert SurfaceFits(s, s.surfaces[a]);
    var t := s.contexts[c].session;
    LocalFits(s, Put(s, Of(c), t.(streaming := true)), Of(c), a);
    var (t', both) := QueueBoth(t.(streaming := true), s.surfaces[a], submit);
    var s' := Put(s, Of(c), t');
    LocalFits(s, s', Of(c), a);
    if s.surfaces[a].status == Rendering {
      StartSyncFits(s', a, submit.queuedRequest, Ending(c));
    } else {
      ReleaseFits(s', c, a);
    }
  }

  lemma EndFits(s: State, c: int, binds: Binds, submit: Submit)
    requires NoDangling(s) && c in s.contexts
    requires s.contexts[c].render.Some? ==> s.contexts[c].render.value !in s.waiting
    ensures NoDangling(EndStep(s, c, binds, submit))
  {
    hide SubmitStep, BindDestination;
    var x := s.contexts[c];
    if x.render.Some? && x.render.value in s.surfaces && x.session.format {
      var a := x.render.value;
      assert SurfaceFits(s, s.surfaces[a]);
      BindsStay(x.session, s.surfaces[a], Of(c), a, binds);
      var y := if s.surfaces[a].destination == None
               then BindDestination(x.session, s.surfaces[a], Of(c), a, binds.sized, binds.mappedDestination)
               else Bound(x.session, s.surfaces[a], true);
      var s1 := PutSurface(Put(s, Of(c), y.session), a, y.surface);
      LocalFits(s, s1, Of(c), a);
      if y.ok {
        var s2 := PutSurface(s1, a, y.surface.(request := true));
        LocalFits(s1, s2, Of(c), a);
        SubmitFits(s2, c, a, submit);
      }
    }
  }

  lemma FinishFits(s: State, a: int, reply: Reply)
    requires NoDangling(s) && Legal(s, Resume(a, reply, Binds(false, false, false)))
    ensures WaitFits(s, a)
    ensures var s1 := Arrive(FinishSync(s, a, s.waiting[a].from, reply), a);
      && NoDangling(s1) && a in s1.surfaces && a !in s1.waiting && s1.surfaces[a].session == s.surfaces[a].session
      && (forall c :: c in s.contexts <==> c in s1.contexts)
  {
    assert WaitFits(s, a) && SurfaceFits(s, s.surfaces[a]);
    LocalFits(s, Arrive(FinishSync(s, a, s.waiting[a].from, reply), a), s.waiting[a].from, a);
  }

  lemma ResumeFits(s: State, a: int, reply: Reply, binds: Binds)
    requires NoDangling(s) && Legal(s, Resume(a, reply, binds))
    ensures NoDangling(ResumeStep(s, a, reply, binds))
  {
    hide Recycle, Strand, BindAndRender, Release, FinishSync;
    assert WaitFits(s, a);
    FinishFits(s, a, reply);
    var s1 := Arrive(FinishSync(s, a, s.waiting[a].from, reply), a);
    match s.waiting[a].rest
    case Syncing =>
    case Destroying => RecycleFits(s1, a);
    case Beginning(c, av1) => BindAndRenderFits(s1, c, a, av1, binds);
    case Ending(c) => ReleaseFits(s1, c, a);
  }

  lemma RebindFits(s: State, r: Ref, a: int, t: Session, u: Surface)
    requires NoDangling(s) && Known(s, r) && a in s.surfaces && a !in s.waiting
    requires SameQueues(At(s, r), t) && t.format == At(s, r).format
    requires u == s.surfaces[a] || (u.session == r && t.format)
    ensures NoDangling(PutSurface(Put(s, r, t), a, u))
  {
    assert SurfaceFits(s, s.surfaces[a]);
    LocalFits(s, PutSurface(Put(s, r, t), a, u), r, a);
  }

  lemma ExportFits(s: State, a: int, via: Ref, binds: Binds)
    requires NoDangling(s) && a in s.surfaces && a !in s.waiting && Known(s, via)
    ensures SurfaceFits(s, s.surfaces[a]) && NoDangling(ExportStep(s, a, via, binds))
  {
    hide BindDestination;
    assert SurfaceFits(s, s.surfaces[a]);
    hide NoDangling, SurfaceFits, Put, PutSurface;
    var u := s.surfaces[a];
    var r := if u.session == Nobody then via else u.session;
    BindsStay(At(s, r), u, r, a, binds);
    if At(s, r).format {
      var y := BindDestination(At(s, r), u, r, a, binds.sized, binds.mappedDestination);
      RebindFits(s, r, a, y.session, y.surface);
    }
  }

  lemma DestroyFits(s: State, a: int, queued: bool)
    requires NoDangling(s) && a in s.surfaces && a !in s.waiting
    ensures SurfaceFits(s, s.surfaces[a]) && NoDangling(DestroyStep(s, a, queued))
  {
    hide Recycle, Strand;
    assert SurfaceFits(s, s.surfaces[a]);
    RecycleFits(s, a);
    if s.surfaces[a].session != Nobody && s.surfaces[a].status == Rendering {
      StartSyncFits(s, a, queued, Destroying);
      if !SyncWaits(s, a, queued) {
        RecycleFits(StartSync(s, a, queued, Destroying), a);
      }
    }
  }

  lemma DestroyContextFits(s: State, c: int)
    requires NoDangling(s) && Legal(s, DestroyContext(c))
    ensures NoDangling(Step(s, DestroyContext(c)))
  {
  }

  lemma OpenFits(s: State, e: Event)
    requires NoDangling(s) && Legal(s, e)
    requires e.CreateSurface? || e.OpenProbe? || e.CreateContext? || e.SwitchBitDepth?
    ensures NoDangling(Step(s, e))
  {
  }

  /** Whatever is called, in whatever order, and whatever the kernel answers: no session pointer ever dangles. */
  lemma StepFits(s: State, e: Event)
    requires NoDangling(s) && Legal(s, e)
    ensures NoDangling(Step(s, e))
  {
    hide ExportStep, BeginStep, EndStep, DestroyStep, ResumeStep, StartSync;
    match e
    case DestroyContext(c) => DestroyContextFits(s, c);
    case Export(a, via, binds) => ExportFits(s, a, via, binds);
    case BeginPicture(c, a, av1, matches, queued, binds) => BeginFits(s, c, a, av1, matches, queued, binds);
    case EndPicture(c, binds, submit) => EndFits(s, c, binds, submit);
    case SyncSurface(a, queued) =>
      if s.surfaces[a].status == Rendering {
        StartSyncFits(s, a, queued, Syncing);
      }
    case DestroySurface(a, queued) => DestroyFits(s, a, queued);
    case Resume(a, reply, binds) => ResumeFits(s, a, reply, binds);
    case _ => OpenFits(s, e);
  }

  /** A run: every step legal where it is taken. */
  ghost predicate Run(s: State, es: seq<Event>, s': State)
    requires NoDangling(s)
    decreases |es|
  {
    if es == [] then s' == s
    else Legal(s, es[0]) && (StepFits(s, es[0]); Run(Step(s, es[0]), es[1..], s'))
  }

  lemma {:induction false} RunsNeverDangle(s: State, es: seq<Event>, s': State)
    requires NoDangling(s) && Run(s, es, s')
    ensures NoDangling(s')
    decreases |es|
  {
    if es != [] {
      StepFits(s, es[0]);
      RunsNeverDangle(Step(s, es[0]), es[1..], s');
    }
  }
}
