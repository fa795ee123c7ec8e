/**
One frame through the protocol: what a vaBeginPicture, a vaEndPicture that waits, and a wait that completes leave
behind.
*/
module ProtocolDecode {
  import opened Options
  import opened Ownership
  import opened Protocol

  /** A surface that can be begun on context c: not rendering, with no coded buffer, and buffers to be had. */
  predicate CanBegin(s: State, c: int, a: int)
  {
    && c in s.contexts && a in s.surfaces && a !in s.waiting && Quiet(s, c)
    && var t, u := s.contexts[c].session, s.surfaces[a];
    && u.session in {Nobody, Of(c)} && u.source == None && u.status != Rendering
    && t.format && !Exhausted(t.output) && (u.destination == None ==> !Exhausted(t.capture))
  }

  function SourceOf(s: State, c: int): nat
    requires c in s.contexts
  {
    TakenIndex(s.contexts[c].session.output)
  }

  function DestinationOf(s: State, c: int, a: int): nat
    requires c in s.contexts && a in s.surfaces
  {
    if s.surfaces[a].destination.Some? then s.surfaces[a].destination.value
    else TakenIndex(s.contexts[c].session.capture)
  }

  /** The context's session once the surface has both its buffers. */
  function BoundSession(s: State, c: int, a: int): Session
    requires c in s.contexts && a in s.surfaces
  {
    var t := s.contexts[c].session;
    t.(output := Take(t.output, a),
       capture := if s.surfaces[a].destination.Some? then t.capture else Take(t.capture, a))
  }

  function With(s: State, c: int, a: int, x: Context, u: Surface): State
  {
    s.(contexts := s.contexts[c := x], surfaces := s.surfaces[a := u])
  }

  /** What vaBeginPicture leaves; for AV1 the CAPTURE buffer is left to vaEndPicture. */
  function Begun(s: State, c: int, a: int, av1: bool): State
    requires c in s.contexts && a in s.surfaces
  {
    var t := BoundSession(s, c, a);
    With(s, c, a, Context(if av1 then t.(capture := s.contexts[c].session.capture) else t, Some(a)),
         Surface(Rendering, Some(SourceOf(s, c)),
                 if av1 then s.surfaces[a].destination else Some(DestinationOf(s, c, a)),
                 Of(c), s.surfaces[a].request))
  }

  /** The surface is the render target, rendering and with an OUTPUT buffer, whatever the codec. */
  lemma BeginRenders(s: State, c: int, a: int, av1: bool, matches: bool, queued: bool)
    requires NoDangling(s) && CanBegin(s, c, a)
    ensures Legal(s, BeginPicture(c, a, av1, matches, queued, ALL_BIND))
    ensures var s' := Step(s, BeginPicture(c, a, av1, matches, queued, ALL_BIND));
      && s'.contexts[c].render == Some(a)
      && s'.surfaces[a].status == Rendering && s'.surfaces[a].session == Of(c)
      && s'.surfaces[a].source == Some(TakenIndex(s.contexts[c].session.output))
      && s'.contexts[c].session.output == Take(s.contexts[c].session.output, a)
      && (av1 ==> s'.surfaces[a].destination == s.surfaces[a].destination
                  && s'.contexts[c].session.capture == s.contexts[c].session.capture)
      && (!av1 ==> s'.surfaces[a].destination.Some?)
  {
    hide Step, Legal, Take, TakenIndex;
    BeginBinds(s, c, a, av1, matches, queued);
  }

  lemma BeginBinds(s: State, c: int, a: int, av1: bool, matches: bool, queued: bool)
    requires NoDangling(s) && CanBegin(s, c, a)
    ensures var e := BeginPicture(c, a, av1, matches, queued, ALL_BIND);
      Legal(s, e) && Step(s, e) == Begun(s, c, a, av1)
  {
    hide Take, Exhausted, TakenIndex, ExportStep, EndStep, DestroyStep, ResumeStep, StartSync, BindAndRender, Begun;
    assert SurfaceFits(s, s.surfaces[a]);
    BindingMakesBegun(s, c, a);
    SourceMakesBegun(s, c, a);
  }

  lemma BindingMakesBegun(s: State, c: int, a: int)
    requires NoDangling(s) && CanBegin(s, c, a)
    ensures BindAndRender(s, c, a, false, ALL_BIND) == Begun(s, c, a, false)
  {
    hide Take, Exhausted, TakenIndex;
    assert SurfaceFits(s, s.surfaces[a]);
  }

  lemma SourceMakesBegun(s: State, c: int, a: int)
    requires NoDangling(s) && CanBegin(s, c, a)
    ensures BindAndRender(s, c, a, true, ALL_BIND) == Begun(s, c, a, true)
  {
    hide Take, Exhausted, TakenIndex;
    assert SurfaceFits(s, s.surfaces[a]);
  }

  function Submitted(s: State, c: int, a: int): State
    requires c in s.contexts && a in s.surfaces
  {
    var t := BoundSession(s, c, a);
    var t' := t.(streaming := true, output := t.output.(queued := t.output.queued + {SourceOf(s, c)}),
                 capture := t.capture.(queued := t.capture.queued + {DestinationOf(s, c, a)}));
    With(s, c, a, Context(t', Some(a)),
         Surface(Rendering, Some(SourceOf(s, c)), Some(DestinationOf(s, c, a)), Of(c), true))
      .(waiting := s.waiting[a := Wait(Ending(c), Of(c))])
  }

  lemma EndSubmits(s: State, c: int, a: int, av1: bool)
    requires NoDangling(s) && CanBegin(s, c, a) && NoDangling(Begun(s, c, a, av1))
    ensures var e := EndPicture(c, ALL_BIND, SUBMITTED);
      Legal(Begun(s, c, a, av1), e) && Step(Begun(s, c, a, av1), e) == Submitted(s, c, a)
  {
    hide Take, Exhausted, TakenIndex, BindDestination;
    if av1 && s.surfaces[a].destination == None {
      LateBind(s, c, a);
    }
  }

  /** The CAPTURE buffer of an AV1 frame, bound at vaEndPicture. */
  lemma LateBind(s: State, c: int, a: int)
    requires NoDangling(s) && CanBegin(s, c, a) && s.surfaces[a].destination == None
    ensures var x, u := Begun(s, c, a, true).contexts[c].session, Begun(s, c, a, true).surfaces[a];
      BindDestination(x, u, Of(c), a, true, true)
      == Bound(BoundSession(s, c, a), u.(destination := Some(DestinationOf(s, c, a))), true)
  {
    hide Take, TakenIndex;
  }

  function Decoded(s: State, c: int, a: int): State
    requires c in s.contexts && a in s.surfaces
  {
    var t := BoundSession(s, c, a);
    var i, k := SourceOf(s, c), DestinationOf(s, c, a);
    var t' := t.(streaming := true, output := Give(t.output.(queued := t.output.queued - {i}), i),
                 capture := t.capture.(queued := t.capture.queued - {k}));
    With(s, c, a, Context(t', None), Surface(Displaying, None, Some(k), Of(c), true))
  }

  lemma ResumeReleases(s: State, c: int, a: int, binds: Binds)
    requires NoDangling(s) && CanBegin(s, c, a) && NoDangling(Submitted(s, c, a))
    ensures var e := Resume(a, Completed(SourceOf(s, c), DestinationOf(s, c, a)), binds);
      Legal(Submitted(s, c, a), e) && Step(Submitted(s, c, a), e) == Decoded(s, c, a)
  {
    hide Take, Exhausted, TakenIndex;
    var s2 := Submitted(s, c, a);
    var e := Resume(a, Completed(SourceOf(s, c), DestinationOf(s, c, a)), binds);
    var s3 := Step(s2, e);
    assert s3.waiting == s.waiting;
    var t := BoundSession(s, c, a);
    assert t.output.queued + {SourceOf(s, c)} - {SourceOf(s, c)} == t.output.queued - {SourceOf(s, c)};
    var k := DestinationOf(s, c, a);
    assert t.capture.queued + {k} - {k} == t.capture.queued - {k};
  }

  /**
  The main result: a frame whose every call succeeds, of any codec, gives its OUTPUT index back, so the stack is what
  it was, with the new index on it if it had to be a new one; it keeps its CAPTURE index, has both off the kernel's
  queues, and leaves the context without a render target and everything else untouched.
  */
  lemma DecodeGivesSourceBack(s: State, c: int, a: int, av1: bool, matches: bool, queued: bool, binds: Binds)
    requires NoDangling(s) && CanBegin(s, c, a) && |s.contexts[c].session.output.free| <= MAX_BUFFERS
    ensures var i, k := SourceOf(s, c), DestinationOf(s, c, a);
      Run(s, [BeginPicture(c, a, av1, matches, queued, ALL_BIND), EndPicture(c, ALL_BIND, SUBMITTED),
              Resume(a, Completed(i, k), binds)],
          Decoded(s, c, a))
    ensures var t, s' := s.contexts[c].session, Decoded(s, c, a);
      && s'.contexts[c].session.output.free == (if t.output.free != [] then t.output.free else [t.output.next])
      && s'.contexts[c].session.output.queued == t.output.queued - {SourceOf(s, c)}
      && s'.contexts[c].session.capture.queued == t.capture.queued - {DestinationOf(s, c, a)}
      && s'.surfaces[a] == Surface(Displaying, None, Some(DestinationOf(s, c, a)), Of(c), true)
      && s'.contexts[c].render == None && s'.waiting == s.waiting && s'.probe == s.probe
      && (forall b | b in s.surfaces && b != a :: b in s'.surfaces && s'.surfaces[b] == s.surfaces[b])
      && (forall d | d in s.contexts && d != c :: d in s'.contexts && s'.contexts[d] == s.contexts[d])
  {
    hide Step, Legal, NoDangling, Begun, Submitted;
    var e1, e2 := BeginPicture(c, a, av1, matches, queued, ALL_BIND), EndPicture(c, ALL_BIND, SUBMITTED);
    var e3 := Resume(a, Completed(SourceOf(s, c), DestinationOf(s, c, a)), binds);
    BeginBinds(s, c, a, av1, matches, queued);
    StepFits(s, e1);
    EndSubmits(s, c, a, av1);
    StepFits(Begun(s, c, a, av1), e2);
    ResumeReleases(s, c, a, binds);
    StepFits(Submitted(s, c, a), e3);
    assert [e1, e2, e3][1..] == [e2, e3] && [e2, e3][1..] == [e3] && [e3][1..] == [];
    assert Run(Decoded(s, c, a), [], Decoded(s, c, a));
    assert Run(Submitted(s, c, a), [e3], Decoded(s, c, a));
    assert Run(Begun(s, c, a, av1), [e2, e3], Decoded(s, c, a));
  }
}
