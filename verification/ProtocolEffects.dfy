/**
What each entry point does to the surfaces, the pools and the kernel's queues, on its every path: the invariants of the
other modules say what no step breaks, this says what each step achieves.
*/
module ProtocolEffects {
  import opened Options
  import opened Ownership
  import opened Protocol

  // ----- pools, without the model's bookkeeping

  predicate HasRoom(p: Pool)
  {
    p.free != [] || p.next < p.granted
  }

  /** Index i was handed out: the last one given back, or the next new one. */
  predicate HandsOut(p: Pool, p': Pool, i: nat)
  {
    && p'.granted == p.granted && p'.queued == p.queued
    && if p.free != [] then p.free == p'.free + [i] && p'.next == p.next
       else p'.free == [] && i == p.next && p'.next == p.next + 1
  }

  /** Nothing changed hands; a new index may have come onto the stack. */
  predicate HandsNone(p: Pool, p': Pool)
  {
    && p'.granted == p.granted && p'.queued == p.queued
    && if p.free == [] then p'.free == [p.next] && p'.next == p.next + 1
       else p'.next == p.next && (|p.free| <= 64 ==> p'.free == p.free)
  }

  predicate SameStack(p: Pool, p': Pool)
  {
    p'.granted == p.granted && p'.next == p.next && p'.free == p.free && p'.queued == p.queued
  }

  /** The index, if there is one, came onto the stack; the 64 places of the array are never exceeded. */
  predicate TakesBack(p: Pool, p': Pool, o: Option<nat>)
  {
    && p'.granted == p.granted && p'.next == p.next && p'.queued == p.queued
    && p'.free == if o.Some? && |p.free| < 64 then p.free + [o.value] else p.free
  }

  /** No session but r's changed, and no context's render target. */
  predicate OneSession(s: State, s': State, r: Ref)
  {
    && Known(s, r)
    && if r == Probe then s'.contexts == s.contexts
       else
         && s'.probe == s.probe && r.context in s'.contexts
         && s'.contexts == s.contexts[r.context := s'.contexts[r.context]]
         && s'.contexts[r.context].render == s.contexts[r.context].render
  }

  predicate SameModes(t: Session, t': Session)
  {
    t'.format == t.format && t'.streaming == t.streaming
  }

  // ----- creation and destruction

  lemma CreateEffect(s: State, a: int, c: int, m: nat, n: nat)
    requires NoDangling(s) && Legal(s, CreateSurface(a)) && Legal(s, CreateContext(c, m, n))
    ensures var s' := Step(s, CreateSurface(a));
      s' == s.(surfaces := s'.surfaces) && s'.surfaces == s.surfaces[a := Surface(Ready, None, None, Nobody, false)]
    ensures var s' := Step(s, CreateContext(c, m, n));
      && s' == s.(contexts := s'.contexts) && s'.contexts == s.contexts[c := s'.contexts[c]]
      && s'.contexts[c].render == None && s'.contexts[c].session.format && !s'.contexts[c].session.streaming
      && s'.contexts[c].session.output == Pool(m, 0, [], {}, map[])
      && s'.contexts[c].session.capture == Pool(n, 0, [], {}, map[])
  {
  }

  lemma OpenProbeEffect(s: State, format: bool, m: nat, n: nat)
    requires NoDangling(s) && Legal(s, OpenProbe(format, m, n))
    ensures Step(s, OpenProbe(format, m, n)) ==
      s.(probe := Session(format, false, Pool(m, 0, [], {}, map[]), Pool(n, 0, [], {}, map[])))
  {
  }

  /** Its surfaces stay, with their status, and can be begun on any other context. */
  lemma DestroyContextEffect(s: State, c: int)
    requires NoDangling(s) && Legal(s, DestroyContext(c))
    ensures var s' := Step(s, DestroyContext(c));
      && s'.probe == s.probe && s'.waiting == s.waiting && s'.surfaces.Keys == s.surfaces.Keys
      && s'.contexts == s.contexts - {c}
      && forall b | b in s.surfaces ::
           s'.surfaces[b] == if s.surfaces[b].session == Of(c)
                             then Surface(s.surfaces[b].status, None, None, Nobody, s.surfaces[b].request)
                             else s.surfaces[b]
  {
  }

  /** A format that cannot be had leaves the session unconfigured. */
  lemma SwitchBitDepthEffect(s: State, c: int, format: bool, n: nat)
    requires NoDangling(s) && Legal(s, SwitchBitDepth(c, format, n))
    ensures var s', t := Step(s, SwitchBitDepth(c, format, n)), s.contexts[c].session;
      && s' == s.(contexts := s'.contexts)
      && s'.contexts == s.contexts[c := Context(Session(format, t.streaming, t.output, Pool(n, 0, [], {}, map[])),
                                                s.contexts[c].render)]
  {
  }

  /** A surface that is not rendering goes at once, and its indices come onto the stacks they are from. */
  lemma DestroyIdle(s: State, a: int, queued: bool)
    requires NoDangling(s) && Legal(s, DestroySurface(a, queued))
    requires s.surfaces[a].status != Rendering || s.surfaces[a].session == Nobody
    ensures var s', u := Step(s, DestroySurface(a, queued)), s.surfaces[a];
      && s'.surfaces == s.surfaces - {a} && s'.waiting == s.waiting
      && (u.session == Nobody ==> s'.contexts == s.contexts && s'.probe == s.probe)
      && (u.session != Nobody ==>
            && OneSession(s, s', u.session) && SameModes(At(s, u.session), At(s', u.session))
            && TakesBack(At(s, u.session).output, At(s', u.session).output, u.source)
            && TakesBack(At(s, u.session).capture, At(s', u.session).capture, u.destination))
  {
    assert SurfaceFits(s, s.surfaces[a]);
  }

  // ----- waiting

  /** Whether a wait for the surface gets as far as the unlock. */
  predicate CanWait(s: State, a: int, queued: bool)
    requires a in s.surfaces
  {
    var u := s.surfaces[a];
    u.status == Rendering && Known(s, u.session) && At(s, u.session).format && u.request && queued
  }

  /** The surface has lost its request: the kernel would not take it, and no later call can wait for the surface. */
  predicate RequestLost(s: State, s': State, a: int)
    requires a in s.surfaces
  {
    s' == s.(surfaces := s.surfaces[a := s.surfaces[a].(request := false)])
  }

  /** vaSyncSurface waits for a rendering surface the kernel has a request for, and otherwise changes at most that. */
  lemma SyncEffect(s: State, a: int, queued: bool)
    requires NoDangling(s) && Legal(s, SyncSurface(a, queued))
    ensures var s' := Step(s, SyncSurface(a, queued));
      if CanWait(s, a, queued) then s' == s.(waiting := s.waiting[a := Wait(Syncing, s.surfaces[a].session)])
      else if CanWait(s, a, true) then RequestLost(s, s', a)
      else s' == s
  {
    assert SurfaceFits(s, s.surfaces[a]);
  }

  /** After a wait that failed anywhere the surface is still rendering, and nothing can wait for it again. */
  lemma FailedWait(s: State, a: int, reply: Reply, binds: Binds, queued: bool)
    requires NoDangling(s) && Legal(s, Resume(a, reply, binds)) && !reply.Completed?
    requires !s.waiting[a].rest.Destroying?
    ensures WaitFits(s, a)
    ensures var s', from := Step(s, Resume(a, reply, binds)), s.waiting[a].from;
      && s'.surfaces == s.surfaces[a := s.surfaces[a].(request := false)] && s'.waiting == s.waiting - {a}
      && s'.surfaces[a].status == Rendering && !CanWait(s', a, queued)
      && OneSession(s, s', from) && SameModes(At(s, from), At(s', from))
      && At(s', from).capture == At(s, from).capture
      && At(s', from).output == At(s, from).output.(queued := At(s', from).output.queued)
      && At(s', from).output.queued == At(s, from).output.queued - if reply.OutputOnly? then {reply.output} else {}
  {
    hide BindAndRender, Recycle, Strand, Release;
    assert WaitFits(s, a);
  }

  /** A wait that completed takes both indices off the kernel's queues and shows the surface. */
  lemma CompletedSync(s: State, a: int, o: nat, k: nat, binds: Binds)
    requires NoDangling(s) && Legal(s, Resume(a, Completed(o, k), binds)) && s.waiting[a].rest == Syncing
    ensures WaitFits(s, a)
    ensures var s', from := Step(s, Resume(a, Completed(o, k), binds)), s.waiting[a].from;
      && s'.surfaces == s.surfaces[a := s.surfaces[a].(status := Displaying)] && s'.waiting == s.waiting - {a}
      && OneSession(s, s', from) && SameModes(At(s, from), At(s', from))
      && At(s', from).output == At(s, from).output.(queued := At(s, from).output.queued - {o})
      && At(s', from).capture == At(s, from).capture.(queued := At(s, from).capture.queued - {k})
  {
    hide BindAndRender, Recycle, Strand, Release;
    assert WaitFits(s, a);
  }

  /** A vaBeginPicture or vaDestroySurfaces that waits, waits as vaSyncSurface does. */
  lemma OthersWait(s: State, c: int, a: int, av1: bool, matches: bool, queued: bool, binds: Binds)
    requires NoDangling(s) && Legal(s, BeginPicture(c, a, av1, matches, queued, binds))
    requires s.surfaces[a].status == Rendering && s.surfaces[a].session in {Nobody, Of(c)}
    ensures var s' := Step(s, BeginPicture(c, a, av1, matches, queued, binds));
      if CanWait(s, a, queued) then s' == s.(waiting := s.waiting[a := Wait(Beginning(c, av1), Of(c))])
      else if CanWait(s, a, true) then RequestLost(s, s', a)
      else s' == s
    ensures CanWait(s, a, queued) ==>
      Step(s, DestroySurface(a, queued)) == s.(waiting := s.waiting[a := Wait(Destroying, Of(c))])
  {
    hide Strand, Recycle;
    assert SurfaceFits(s, s.surfaces[a]);
  }

  /** The same wait, as vaSyncSurface would have it. */
  function AsSync(s: State, a: int): State
    requires a in s.waiting
  {
    s.(waiting := s.waiting[a := s.waiting[a].(rest := Syncing)])
  }

  lemma AsSyncFits(s: State, e: Event)
    requires NoDangling(s) && Legal(s, e) && e.Resume?
    ensures NoDangling(AsSync(s, e.a)) && Legal(AsSync(s, e.a), e)
  {
    var s' := AsSync(s, e.a);
    forall b | b in s'.waiting
      ensures WaitFits(s', b)
    {
      assert WaitFits(s, b);
    }
    forall b | b in s'.surfaces
      ensures SurfaceFits(s', s'.surfaces[b])
    {
      assert SurfaceFits(s, s.surfaces[b]);
    }
  }

  /** Up to the rest of the call, every wait ends alike. */
  lemma EndsAsSync(s: State, a: int, reply: Reply, binds: Binds)
    requires NoDangling(s) && Legal(s, Resume(a, reply, binds))
    ensures WaitFits(s, a)
    ensures var e, s1 := Resume(a, reply, binds), Arrive(FinishSync(s, a, s.waiting[a].from, reply), a);
      && NoDangling(AsSync(s, a)) && Legal(AsSync(s, a), e) && Step(AsSync(s, a), e) == s1
      && NoDangling(s1) && a in s1.surfaces && a !in s1.waiting && s1.surfaces[a].session == s.surfaces[a].session
      && s1.contexts.Keys == s.contexts.Keys && s1.waiting == s.waiting - {a}
      && (reply.Completed? ==> s1.surfaces[a].status == Displaying)
      && (!reply.Completed? ==> s1.surfaces[a].status == Rendering && !s1.surfaces[a].request)
  {
    assert WaitFits(s, a);
    var e := Resume(a, reply, binds);
    AsSyncFits(s, e);
    FinishFits(s, a, reply);
    assert Arrive(AsSync(s, a), a).waiting == Arrive(s, a).waiting;
    assert Arrive(FinishSync(AsSync(s, a), a, s.waiting[a].from, reply), a)
        == Arrive(FinishSync(s, a, s.waiting[a].from, reply), a);
  }

  /** Waiting inside vaBeginPicture does what waiting before it would have done. */
  lemma BeginAfterWait(s: State, a: int, o: nat, k: nat, binds: Binds, matches: bool, queued: bool)
    requires NoDangling(s) && Legal(s, Resume(a, Completed(o, k), binds)) && s.waiting[a].rest.Beginning?
    requires Quiet(AsSync(s, a), s.waiting[a].rest.context)
    ensures var e, w := Resume(a, Completed(o, k), binds), s.waiting[a].rest;
      && NoDangling(AsSync(s, a)) && Legal(AsSync(s, a), e)
      && var s1, begin := Step(AsSync(s, a), e), BeginPicture(w.context, a, w.av1, matches, queued, binds);
      NoDangling(s1) && Legal(s1, begin) && Step(s, e) == Step(s1, begin)
  {
    hide BindAndRender, FinishSync, StartSync;
    EndsAsSync(s, a, Completed(o, k), binds);
    var s1 := Step(AsSync(s, a), Resume(a, Completed(o, k), binds));
    forall b | b in s1.waiting
      ensures !Names(s1.waiting[b].rest, s.waiting[a].rest.context)
    {
      assert s1.waiting[b] == AsSync(s, a).waiting[b];
    }
    assert WaitFits(s, a) && SurfaceFits(s, s.surfaces[a]);
    hide NoDangling;
  }

  /** Waiting inside vaDestroySurfaces does what waiting before it would have done, completed or not. */
  lemma DestroyAfterWait(s: State, a: int, reply: Reply, binds: Binds, queued: bool)
    requires NoDangling(s) && Legal(s, Resume(a, reply, binds)) && s.waiting[a].rest.Destroying?
    ensures var e := Resume(a, reply, binds);
      && NoDangling(AsSync(s, a)) && Legal(AsSync(s, a), e)
      && var s1 := Step(AsSync(s, a), e);
      && NoDangling(s1) && Legal(s1, DestroySurface(a, queued)) && Step(s, e) == Step(s1, DestroySurface(a, queued))
  {
    hide FinishSync, Put;
    EndsAsSync(s, a, reply, binds);
    var s1 := Step(AsSync(s, a), Resume(a, reply, binds));
    assert SurfaceFits(s1, s1.surfaces[a]);
    hide NoDangling;
  }

  /** A rendering surface that cannot be waited for goes at once, with its indices. */
  lemma DestroyBusy(s: State, a: int, queued: bool)
    requires NoDangling(s) && Legal(s, DestroySurface(a, queued)) && s.surfaces[a].status == Rendering
    requires s.surfaces[a].session != Nobody && !CanWait(s, a, queued)
    ensures var s', r := Step(s, DestroySurface(a, queued)), s.surfaces[a].session;
      && s'.surfaces == s.surfaces - {a} && s'.waiting == s.waiting
      && OneSession(s, s', r) && SameModes(At(s, r), At(s', r))
      && SameStack(At(s, r).output, At(s', r).output) && SameStack(At(s, r).capture, At(s', r).capture)
  {
    assert SurfaceFits(s, s.surfaces[a]);
  }

  /** Waiting inside vaEndPicture: then the OUTPUT buffer is back, and the context has no target. */
  lemma EndAfterWait(s: State, a: int, o: nat, k: nat, binds: Binds)
    requires NoDangling(s) && Legal(s, Resume(a, Completed(o, k), binds)) && s.waiting[a].rest.Ending?
    ensures var e, c := Resume(a, Completed(o, k), binds), s.waiting[a].rest.context;
      && NoDangling(AsSync(s, a)) && Legal(AsSync(s, a), e)
      && var s1, s' := Step(AsSync(s, a), e), Step(s, e);
      && c in s1.contexts && c in s'.contexts && a in s1.surfaces
      && s' == s1.(surfaces := s'.surfaces, contexts := s'.contexts)
      && s'.surfaces == s1.surfaces[a := s1.surfaces[a].(source := None)]
      && s'.contexts == s1.contexts[c := s'.contexts[c]] && s'.contexts[c].render == None
      && var t, t' := s1.contexts[c].session, s'.contexts[c].session;
      SameModes(t, t') && TakesBack(t.output, t'.output, s1.surfaces[a].source) && t'.capture == t.capture
  {
    hide FinishSync, NoDangling;
    EndsAsSync(s, a, Completed(o, k), binds);
  }

  // ----- binding

  /** An OUTPUT buffer is bound to a surface of this session or of none, which the session takes even if it fails. */
  lemma SourceEffect(t: Session, u: Surface, r: Ref, a: int, mapped: bool)
    ensures var x := BindSource(t, u, r, a, mapped);
      && SameModes(t, x.session) && x.session.capture == t.capture
      && if u.source.Some? then x == Bound(t, u, u.session == r)
         else if u.session !in {Nobody, r} || !HasRoom(t.output) then x == Bound(t, u, false)
         else if mapped then
           && x.ok && x.surface.source.Some? && x.surface == u.(source := x.surface.source, session := r)
           && HandsOut(t.output, x.session.output, x.surface.source.value)
         else !x.ok && x.surface == u.(session := r) && HandsNone(t.output, x.session.output)
  {
  }

  /** A CAPTURE buffer is bound likewise, except that a failure leaves the surface as it was. */
  lemma DestinationEffect(t: Session, u: Surface, r: Ref, a: int, sized: bool, mapped: bool)
    ensures var x := BindDestination(t, u, r, a, sized, mapped);
      && SameModes(t, x.session) && x.session.output == t.output
      && if !t.format then x == Bound(t, u, false)
         else if u.destination.Some? then x == Bound(t, u, u.session == r)
         else if u.session !in {Nobody, r} || !HasRoom(t.capture) || !sized then x == Bound(t, u, false)
         else if mapped then
           && x.ok && x.surface.destination.Some? && x.surface == u.(destination := x.surface.destination, session := r)
           && HandsOut(t.capture, x.session.capture, x.surface.destination.value)
         else !x.ok && x.surface == u && HandsNone(t.capture, x.session.capture)
  {
  }

  lemma RebindEffect(s: State, r: Ref, a: int, t: Session, u: Surface)
    requires Known(s, r)
    ensures var s' := PutSurface(Put(s, r, t), a, u);
      && OneSession(s, s', r) && Known(s', r) && At(s', r) == t
      && s'.surfaces == s.surfaces[a := u] && s'.waiting == s.waiting
  {
  }

  lemma Unchanged(s: State, r: Ref, a: int)
    requires Known(s, r) && a in s.surfaces
    ensures PutSurface(Put(s, r, At(s, r)), a, s.surfaces[a]) == s
  {
  }

  /** vaExportSurfaceHandle binds a CAPTURE buffer to a surface without one, if the session has one to give. */
  lemma ExportEffect(s: State, a: int, via: Ref, binds: Binds)
    requires NoDangling(s) && Legal(s, Export(a, via, binds))
    ensures var s', u := Step(s, Export(a, via, binds)), s.surfaces[a];
      var r := if u.session == Nobody then via else u.session;
      && OneSession(s, s', r) && a in s'.surfaces && s'.surfaces == s.surfaces[a := s'.surfaces[a]]
      && s'.waiting == s.waiting
      && var t, t', u' := At(s, r), At(s', r), s'.surfaces[a];
      && SameModes(t, t') && t'.output == t.output
      && if !t.format || u.destination.Some? || !HasRoom(t.capture) || !binds.sized then t' == t && u' == u
         else if binds.mappedDestination then
           && u'.destination.Some? && HandsOut(t.capture, t'.capture, u'.destination.value)
           && u' == u.(destination := u'.destination, session := r)
         else u' == u && HandsNone(t.capture, t'.capture)
  {
    hide BindDestination, HandsOut, HandsNone, HasRoom, SameModes;
    var u := s.surfaces[a];
    assert SurfaceFits(s, u);
    hide NoDangling, OneSession, At, Known, Put, PutSurface;
    var r := if u.session == Nobody then via else u.session;
    DestinationEffect(At(s, r), u, r, a, binds.sized, binds.mappedDestination);
    var y := BindDestination(At(s, r), u, r, a, binds.sized, binds.mappedDestination);
    RebindEffect(s, r, a, y.session, y.surface);
    RebindEffect(s, r, a, At(s, r), u);
    Unchanged(s, r, a);
  }

  /** An idle surface of this context or of none, whose OUTPUT buffer cannot be bound. */
  lemma BeginWithoutSource(s: State, c: int, a: int, av1: bool, matches: bool, queued: bool, binds: Binds)
    requires NoDangling(s) && Legal(s, BeginPicture(c, a, av1, matches, queued, binds))
    requires s.surfaces[a].status != Rendering && s.surfaces[a].session in {Nobody, Of(c)}
    requires s.surfaces[a].source == None && !(HasRoom(s.contexts[c].session.output) && binds.mappedSource)
    ensures var s', u := Step(s, BeginPicture(c, a, av1, matches, queued, binds)), s.surfaces[a];
      var t, t' := s.contexts[c].session, s'.contexts[c].session;
      if !HasRoom(t.output) then s' == s
      else
        && OneSession(s, s', Of(c)) && s'.waiting == s.waiting
        && s'.surfaces == s.surfaces[a := u.(session := Of(c))]
        && SameModes(t, t') && HandsNone(t.output, t'.output) && t'.capture == t.capture
  {
    hide BindSource, BindDestination, HandsOut, HandsNone, HasRoom, StartSync;
    assert SurfaceFits(s, s.surfaces[a]);
    hide NoDangling, SameModes;
    var t, u := s.contexts[c].session, s.surfaces[a];
    SourceEffect(t, u, Of(c), a, binds.mappedSource);
  }

  predicate SourceBound(u: Surface, u': Surface, t: Session, t': Session)
  {
    && u'.source.Some?
    && if u.source.Some? then u'.source == u.source && t'.output == t.output
       else HandsOut(t.output, t'.output, u'.source.value)
  }

  /** s' differs from s in the context c, with its session, and in the surface a. */
  predicate OnlyThese(s: State, s': State, c: int, a: int)
  {
    && c in s'.contexts && s'.contexts == s.contexts[c := s'.contexts[c]]
    && a in s'.surfaces && s'.surfaces == s.surfaces[a := s'.surfaces[a]]
    && s'.probe == s.probe && s'.waiting == s.waiting
  }

  /** AV1: the OUTPUT buffer alone makes the surface the render target. */
  lemma BeginAv1(s: State, c: int, a: int, matches: bool, queued: bool, binds: Binds)
    requires NoDangling(s) && Legal(s, BeginPicture(c, a, true, matches, queued, binds))
    requires s.surfaces[a].status != Rendering && s.surfaces[a].session in {Nobody, Of(c)}
    requires s.surfaces[a].source.Some? || (HasRoom(s.contexts[c].session.output) && binds.mappedSource)
    ensures var s' := Step(s, BeginPicture(c, a, true, matches, queued, binds));
      && OnlyThese(s, s', c, a) && s'.contexts[c].render == Some(a)
      && var t, t', u, u' := s.contexts[c].session, s'.contexts[c].session, s.surfaces[a], s'.surfaces[a];
      && SameModes(t, t') && t'.capture == t.capture && SourceBound(u, u', t, t')
      && u' == Surface(Rendering, u'.source, u.destination, Of(c), u.request)
  {
    hide BindSource, BindDestination, HandsOut, HandsNone, HasRoom, StartSync;
    assert SurfaceFits(s, s.surfaces[a]);
    hide NoDangling, SameModes;
    var t, u := s.contexts[c].session, s.surfaces[a];
    SourceEffect(t, u, Of(c), a, binds.mappedSource);
  }

  lemma RendersIfBound(s: State, c: int, a: int, binds: Binds)
    requires c in s.contexts && a in s.surfaces
    requires BindSource(s.contexts[c].session, s.surfaces[a], Of(c), a, binds.mappedSource).ok
    ensures var x := BindSource(s.contexts[c].session, s.surfaces[a], Of(c), a, binds.mappedSource);
      var y := BindDestination(x.session, x.surface, Of(c), a, binds.sized, binds.mappedDestination);
      var s' := BindAndRender(s, c, a, false, binds);
      && OnlyThese(s, s', c, a)
      && s'.contexts[c] == Context(y.session, if y.ok then Some(a) else s.contexts[c].render)
      && s'.surfaces[a] == if y.ok then y.surface.(status := Rendering) else y.surface
  {
    hide BindSource, BindDestination;
  }

  /** The other codecs: it takes both buffers, and a surface left with one keeps it but is no target. */
  lemma BeginOther(s: State, c: int, a: int, matches: bool, queued: bool, binds: Binds)
    requires NoDangling(s) && Legal(s, BeginPicture(c, a, false, matches, queued, binds))
    requires s.surfaces[a].status != Rendering && s.surfaces[a].session in {Nobody, Of(c)}
    requires s.surfaces[a].source.Some? || (HasRoom(s.contexts[c].session.output) && binds.mappedSource)
    ensures var s' := Step(s, BeginPicture(c, a, false, matches, queued, binds));
      && OnlyThese(s, s', c, a)
      && var t, t', u, u' := s.contexts[c].session, s'.contexts[c].session, s.surfaces[a], s'.surfaces[a];
      && SameModes(t, t') && SourceBound(u, u', t, t')
      && var can := t.format && (u.destination.Some? || (binds.sized && HasRoom(t.capture)));
      var bound := can && (u.destination.Some? || binds.mappedDestination);
      && u'.destination.Some? == (bound || u.destination.Some?)
      && u' == Surface(if bound then Rendering else u.status, u'.source, u'.destination, Of(c), u.request)
      && s'.contexts[c].render == (if bound then Some(a) else s.contexts[c].render)
      && if u.destination.Some? || !can then u'.destination == u.destination && t'.capture == t.capture
         else if bound then HandsOut(t.capture, t'.capture, u'.destination.value)
         else HandsNone(t.capture, t'.capture)
  {
    hide BindSource, BindDestination, HandsOut, HandsNone, HasRoom, StartSync, BindAndRender, OnlyThese;
    assert SurfaceFits(s, s.surfaces[a]);
    hide NoDangling;
    var t, u := s.contexts[c].session, s.surfaces[a];
    SourceEffect(t, u, Of(c), a, binds.mappedSource);
    var x := BindSource(t, u, Of(c), a, binds.mappedSource);
    DestinationEffect(x.session, x.surface, Of(c), a, binds.sized, binds.mappedDestination);
    RendersIfBound(s, c, a, binds);
  }

  // ----- the probe session

  /** A context that has handed out nothing takes over a configured probe session of its format. */
  predicate TakesProbe(s: State, c: int, matches: bool)
    requires c in s.contexts
  {
    var t := s.contexts[c].session;
    && !t.streaming && t.output.next == 0 && t.capture.next == 0
    && s.probe.format && s.probe.capture.granted > 0 && matches
  }

  predicate ProbeTaken(s: State, s': State, c: int)
    requires c in s.contexts
  {
    && s'.surfaces.Keys == s.surfaces.Keys && s'.waiting == s.waiting
    && (forall b | b in s.surfaces ::
          s'.surfaces[b] == if s.surfaces[b].session == Probe then s.surfaces[b].(session := Of(c)) else s.surfaces[b])
    && s'.contexts == s.contexts[c := Context(s.probe, s.contexts[c].render)]
    && s'.probe == Session(false, false, Pool(0, 0, [], {}, map[]), Pool(0, 0, [], {}, map[]))
  }

  /** Beginning a surface of the probe session moves the session, with all its surfaces, and begins it there. */
  lemma BeginOnProbe(s: State, c: int, a: int, av1: bool, matches: bool, queued: bool, binds: Binds)
    requires NoDangling(s) && Legal(s, BeginPicture(c, a, av1, matches, queued, binds))
    requires s.surfaces[a].session == Probe && TakesProbe(s, c, matches)
    ensures var s1, e := Adopt(s, c), BeginPicture(c, a, av1, matches, queued, binds);
      ProbeTaken(s, s1, c) && NoDangling(s1) && Legal(s1, e) && Step(s, e) == Step(s1, e)
  {
    hide BeginAdopted;
    AdoptFits(s, c);
  }

  /** A surface of another session, that cannot be moved, is refused. */
  lemma BeginForeign(s: State, c: int, a: int, av1: bool, matches: bool, queued: bool, binds: Binds)
    requires NoDangling(s) && Legal(s, BeginPicture(c, a, av1, matches, queued, binds))
    requires s.surfaces[a].session !in {Nobody, Of(c)}
    requires !(s.surfaces[a].session == Probe && TakesProbe(s, c, matches))
    ensures Step(s, BeginPicture(c, a, av1, matches, queued, binds)) == s
  {
    hide BeginAdopted;
    assert SurfaceFits(s, s.surfaces[a]);
  }

  // ----- vaEndPicture

  lemma EndWithoutTarget(s: State, c: int, binds: Binds, submit: Submit)
    requires NoDangling(s) && Legal(s, EndPicture(c, binds, submit))
    requires s.contexts[c].render == None || s.contexts[c].render.value !in s.surfaces || !s.contexts[c].session.format
    ensures Step(s, EndPicture(c, binds, submit)) == s
  {
    hide SubmitStep, BindDestination;
  }

  /** The late bind of a CAPTURE buffer is that of an export from the context's session. */
  lemma EndBindsFirst(s: State, c: int, a: int, binds: Binds, submit: Submit)
    requires NoDangling(s) && Legal(s, EndPicture(c, binds, submit))
    requires s.contexts[c].render == Some(a) && a in s.surfaces && s.contexts[c].session.format
    requires s.surfaces[a].destination == None
    ensures var e := EndPicture(c, binds, submit);
      if s.surfaces[a].session !in {Nobody, Of(c)} then Step(s, e) == s
      else
        && Legal(s, Export(a, Of(c), binds))
        && var s1 := Step(s, Export(a, Of(c), binds));
        && NoDangling(s1) && Legal(s1, e) && a in s1.surfaces
        && Step(s, e) == if s1.surfaces[a].destination.Some? then Step(s1, e) else s1
  {
    hide SubmitStep, BindDestination, HandsOut, HandsNone, HasRoom, SameModes;
    var t, u := s.contexts[c].session, s.surfaces[a];
    assert SurfaceFits(s, u);
    DestinationEffect(t, u, Of(c), a, binds.sized, binds.mappedDestination);
    Unchanged(s, Of(c), a);
    if u.session in {Nobody, Of(c)} {
      ExportFits(s, a, Of(c), binds);
      var s1 := Step(s, Export(a, Of(c), binds));
      hide NoDangling;
      Unchanged(s1, Of(c), a);
        }
  }

  /** How far the submission gets: to streaming, to the controls, to the CAPTURE queue, to the OUTPUT queue. */
  datatype Reach = Reach(request: bool, streams: bool, capture: bool, output: bool)

  function Reached(t: Session, u: Surface, submit: Submit): Reach
  {
    var request := u.request || submit.request;
    var streams := request && (t.streaming || submit.started);
    var capture := streams && submit.controls && submit.queuedCapture;
    Reach(request, streams, capture, capture && u.source.Some? && submit.queuedOutput)
  }

  lemma QueueEffect(t: Session, u: Surface, submit: Submit)
    requires u.destination.Some? && t.streaming
    ensures var (t', both) := QueueBoth(t, u, submit);
      && both == (submit.queuedCapture && u.source.Some? && submit.queuedOutput)
      && t' == Session(t.format, true, t'.output, t'.capture)
      && t'.capture
         == t.capture.(queued := t.capture.queued + if submit.queuedCapture then {u.destination.value} else {})
      && t'.output == t.output.(queued := t.output.queued + if both then {u.source.value} else {})
  {
  }

  lemma EndPolls(s: State, c: int, a: int, submit: Submit)
    requires c in s.contexts && a in s.surfaces && s.surfaces[a].request
    requires s.surfaces[a].session == Nobody || Known(s, s.surfaces[a].session)
    ensures var s', u := StartSync(s, a, submit.queuedRequest, Ending(c)), s.surfaces[a];
      var polls := Known(s, u.session) && At(s, u.session).format;
      && s'.contexts == s.contexts && s'.probe == s.probe
      && s'.waiting == (if polls && submit.queuedRequest then s.waiting[a := Wait(Ending(c), u.session)] else s.waiting)
      && s'.surfaces == s.surfaces[a := u.(request := !(polls && !submit.queuedRequest))]
  {
  }

  lemma EndReleases(s: State, c: int, a: int)
    requires c in s.contexts && a in s.surfaces
    ensures var s', t, u := Release(s, c, a), s.contexts[c].session, s.surfaces[a];
      && c in s'.contexts && s'.contexts == s.contexts[c := Context(s'.contexts[c].session, None)]
      && s'.surfaces == s.surfaces[a := u.(source := None)] && s'.waiting == s.waiting && s'.probe == s.probe
      && SameModes(t, s'.contexts[c].session) && s'.contexts[c].session.capture == t.capture
      && TakesBack(t.output, s'.contexts[c].session.output, u.source)
  {
  }

  /** vaEndPicture on a target with a CAPTURE buffer, wherever it stops. */
  lemma EndEffect(s: State, c: int, a: int, binds: Binds, submit: Submit)
    requires NoDangling(s) && Legal(s, EndPicture(c, binds, submit))
    requires s.contexts[c].render == Some(a) && a in s.surfaces && s.contexts[c].session.format
    requires s.surfaces[a].destination.Some?
    ensures var s', t, u := Step(s, EndPicture(c, binds, submit)), s.contexts[c].session, s.surfaces[a];
      var g := Reached(t, u, submit);
      var polls := g.output && u.status == Rendering && Known(s, u.session) && At(s, u.session).format;
      var lost := polls && !submit.queuedRequest;
      var released := g.output && u.status != Rendering;
      && c in s'.contexts && s'.probe == s.probe
      && s'.waiting == (if polls && !lost then s.waiting[a := Wait(Ending(c), u.session)] else s.waiting)
      && s'.surfaces
         == s.surfaces[a := u.(request := g.request && !lost, source := if released then None else u.source)]
      && s'.contexts == s.contexts[c := Context(s'.contexts[c].session, if released then None else Some(a))]
      && var t' := s'.contexts[c].session;
      && t'.format && t'.streaming == (t.streaming || g.streams)
      && t'.capture == t.capture.(queued := t.capture.queued + if g.capture then {u.destination.value} else {})
      && TakesBack(t.output.(queued := t.output.queued + if g.output then {u.source.value} else {}), t'.output,
                   if released then u.source else None)
  {
    hide BindDestination, QueueBoth, StartSync, Release;
    var t, u := s.contexts[c].session, s.surfaces[a];
    assert SurfaceFits(s, u);
    hide NoDangling;
    QueueEffect(t.(streaming := true), u.(request := true), submit);
    Unchanged(s, Of(c), a);
    var (t', both) := QueueBoth(t.(streaming := true), u.(request := true), submit);
    var s1 := Put(PutSurface(s, a, u.(request := true)), Of(c), t');
    if Reached(t, u, submit).output {
      if u.status == Rendering {
        EndPolls(s1, c, a, submit);
      } else {
        EndReleases(s1, c, a);
      }
    }
  }
}
