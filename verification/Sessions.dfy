/**
The session and surface structs as the driver updates them: free-index stacks in fixed arrays, counters beside them,
and session pointers. Each method is proved to do to these fields what its namesake in Ownership or Protocol does to
the values, so the results proved there are about this code.
*/
module Sessions {
  import opened Options
  import opened Ownership
  import P = Protocol

  const UNASSIGNED := -1

  datatype Books = Books(outputQueued: set<nat>, captureQueued: set<nat>,
                         outputOwner: map<nat, Owner>, captureOwner: map<nat, Owner>)

  const NO_BOOKS := Books({}, {}, map[], map[])

  /** struct decoder_session (session.h). */
  class DecoderSession {
    ghost const name: Ref
    const freeOutput: array<nat>
    const freeCapture: array<nat>
    var format: bool
    var streaming: bool
    var numOutputBuffers: nat
    var numCaptureBuffers: nat
    var nextOutputBuf: nat
    var nextCaptureBuf: nat
    var freeOutputCount: nat
    var freeCaptureCount: nat
    // the kernel's queues, and the model's bookkeeping
    ghost var books: Books

    ghost predicate Valid()
      reads this
    {
      && freeOutput.Length == freeCapture.Length == MAX_BUFFERS && freeOutput != freeCapture
      && freeOutputCount <= MAX_BUFFERS && freeCaptureCount <= MAX_BUFFERS
      && name != Nobody
    }

    ghost function Value(): Session
      requires Valid()
      reads this, freeOutput, freeCapture
    {
      Session(format, streaming,
              Pool(numOutputBuffers, nextOutputBuf, freeOutput[..freeOutputCount],
                   books.outputQueued, books.outputOwner),
              Pool(numCaptureBuffers, nextCaptureBuf, freeCapture[..freeCaptureCount],
                   books.captureQueued, books.captureOwner))
    }

    /** decoder_session_open's zeroed struct. */
    constructor (r: Ref)
      requires r != Nobody
      ensures Valid() && Value() == CLOSED && name == r && fresh(freeOutput) && fresh(freeCapture)
    {
      name := r;
      freeOutput := new nat[MAX_BUFFERS];
      freeCapture := new nat[MAX_BUFFERS];
      format, streaming := false, false;
      numOutputBuffers, numCaptureBuffers, nextOutputBuf, nextCaptureBuf := 0, 0, 0, 0;
      freeOutputCount, freeCaptureCount := 0, 0;
      books := NO_BOOKS;
    }

    /** decoder_session_close; the arrays keep their contents, which no count covers any more. */
    method Close()
      requires Valid()
      modifies this
      ensures Valid() && Value() == CLOSED
    {
      format, streaming := false, false;
      numOutputBuffers, numCaptureBuffers, nextOutputBuf, nextCaptureBuf := 0, 0, 0, 0;
      freeOutputCount, freeCaptureCount := 0, 0;
      books := NO_BOOKS;
    }

    /** A recycled index if there is one, or else the next new one. */
    method PopOutput(a: int) returns (i: nat)
      requires Valid() && (freeOutputCount > 0 || nextOutputBuf < numOutputBuffers)
      modifies this`freeOutputCount, this`nextOutputBuf, this`books
      ensures Valid() && i == TakenIndex(old(Value()).output)
      ensures Value() == old(Value()).(output := Take(old(Value()).output, a))
    {
      ghost var before := Value().output;
      if freeOutputCount > 0 {
        freeOutputCount := freeOutputCount - 1;
        i := freeOutput[freeOutputCount];
        assert freeOutput[..freeOutputCount] == before.free[..|before.free| - 1];
      } else {
        i := nextOutputBuf;
        nextOutputBuf := nextOutputBuf + 1;
      }
      books := books.(outputOwner := books.outputOwner[i := Held(a)]);
    }

    method PopCapture(a: int) returns (i: nat)
      requires Valid() && (freeCaptureCount > 0 || nextCaptureBuf < numCaptureBuffers)
      modifies this`freeCaptureCount, this`nextCaptureBuf, this`books
      ensures Valid() && i == TakenIndex(old(Value()).capture)
      ensures Value() == old(Value()).(capture := Take(old(Value()).capture, a))
    {
      ghost var before := Value().capture;
      if freeCaptureCount > 0 {
        freeCaptureCount := freeCaptureCount - 1;
        i := freeCapture[freeCaptureCount];
        assert freeCapture[..freeCaptureCount] == before.free[..|before.free| - 1];
      } else {
        i := nextCaptureBuf;
        nextCaptureBuf := nextCaptureBuf + 1;
      }
      books := books.(captureOwner := books.captureOwner[i := Held(a)]);
    }

    /** bind_source_buffer; `mapped` is whether the query and the mapping succeed. */
    method BindSourceBuffer(surface: ObjectSurface, mapped: bool) returns (ok: bool)
      requires Valid() && surface.Valid() && surface.Points(this)
      modifies this, freeOutput, surface
      ensures Valid() && surface.Valid() && surface.Points(this)
      ensures var b := BindSource(old(Value()), old(surface.Value()), name, surface.id, mapped);
        Value() == b.session && surface.Value() == b.surface && ok == b.ok
    {
      hide Take, Give, TakenIndex;
      if surface.sourceIndex != UNASSIGNED {
        ok := surface.session == this && surface.sourceData;
        return;
      }
      if surface.session != null && surface.session != this {
        return false;
      }
      if freeOutputCount == 0 && nextOutputBuf >= numOutputBuffers {
        return false;
      }
      surface.sourceIndex := PopOutput(surface.id);
      surface.session := this;
      if mapped {
        surface.sourceData := true;
        return true;
      }
      PushOutput(surface.sourceIndex);
      surface.sourceIndex := UNASSIGNED;
      surface.sourceData := false;
      ok := false;
    }

    /** The guarded push the error paths and the releases share. */
    method PushOutput(i: nat)
      requires Valid()
      modifies this`freeOutputCount, this`books, freeOutput
      ensures Valid()
      ensures Value() == old(Value()).(output := Give(old(Value()).output, i))
    {
      if freeOutputCount < MAX_BUFFERS {
        freeOutput[freeOutputCount] := i;
        freeOutputCount := freeOutputCount + 1;
        books := books.(outputOwner := books.outputOwner[i := Free]);
      } else {
        books := books.(outputOwner := books.outputOwner[i := Lost]);
      }
    }

    method PushCapture(i: nat)
      requires Valid()
      modifies this`freeCaptureCount, this`books, freeCapture
      ensures Valid()
      ensures Value() == old(Value()).(capture := Give(old(Value()).capture, i))
    {
      if freeCaptureCount < MAX_BUFFERS {
        freeCapture[freeCaptureCount] := i;
        freeCaptureCount := freeCaptureCount + 1;
        books := books.(captureOwner := books.captureOwner[i := Free]);
      } else {
        books := books.(captureOwner := books.captureOwner[i := Lost]);
      }
    }

    /** release_source_buffer. */
    method ReleaseSourceBuffer(surface: ObjectSurface)
      requires Valid() && surface.Valid()
      modifies this`freeOutputCount, this`books, freeOutput, surface`sourceIndex, surface`sourceData
      ensures Valid() && surface.Valid()
      ensures (Value(), surface.Value()) == ReleaseSource(old(Value()), old(surface.Value()))
    {
      if surface.sourceIndex != UNASSIGNED {
        PushOutput(surface.sourceIndex);
      }
      surface.sourceData := false;
      surface.sourceIndex := UNASSIGNED;
    }

    /** The pop of request_bind_destination_buffer, and the session pointer if the surface had none. */
    method TakeCapture(surface: ObjectSurface) returns (setSession: bool)
      requires Valid() && surface.Valid() && surface.Points(this) && !Exhausted(Value().capture)
      requires surface.destinationIndex == UNASSIGNED && (surface.session == null || surface.session == this)
      modifies this`freeCaptureCount, this`nextCaptureBuf, this`books, surface`destinationIndex, surface`session
      ensures Valid() && surface.Valid() && surface.session == this && setSession == old(surface.session == null)
      ensures var p := old(Value()).capture;
        && Value() == old(Value()).(capture := Take(p, surface.id))
        && surface.Value() == old(surface.Value()).(destination := Some(TakenIndex(p)), session := name)
    {
      surface.destinationIndex := PopCapture(surface.id);
      setSession := surface.session == null;
      surface.session := this;
    }

    /** request_bind_destination_buffer; `sized` is whether the format can be read, `mapped` all that follows. */
    method BindDestinationBuffer(surface: ObjectSurface, sized: bool, mapped: bool) returns (ok: bool)
      requires Valid() && surface.Valid() && surface.Points(this)
      modifies this, freeCapture, surface
      ensures Valid() && surface.Valid() && surface.Points(this)
      ensures var b := BindDestination(old(Value()), old(surface.Value()), name, surface.id, sized, mapped);
        Value() == b.session && surface.Value() == b.surface && ok == b.ok
    {
      hide Take, Give, TakenIndex;
      if !format {
        return false;
      }
      if surface.destinationIndex != UNASSIGNED {
        return surface.session == this;
      }
      if surface.session != null && surface.session != this {
        return false;
      }
      if freeCaptureCount == 0 && nextCaptureBuf >= numCaptureBuffers {
        return false;
      }
      if !sized {
        return false;
      }
      var setSession := TakeCapture(surface);
      if mapped {
        return true;
      }
      PushCapture(surface.destinationIndex);
      surface.destinationIndex := UNASSIGNED;
      if setSession {
        surface.session := null;
      }
      ok := false;
    }

    /** The pushes of surface_release_buffers, once the surface is not, or no longer, rendering. */
    method TakeBack(surface: ObjectSurface)
      requires Valid() && surface.Valid() && surface.session == this
      modifies this, freeOutput, freeCapture, surface`sourceIndex, surface`destinationIndex
      ensures Valid()
      ensures var t, u := old(Value()), old(surface.Value());
        Value() == t.(output := GiveBack(t.output, u.source), capture := GiveBack(t.capture, u.destination))
      ensures surface.sourceIndex == surface.destinationIndex == UNASSIGNED
    {
      if surface.sourceIndex != UNASSIGNED {
        PushOutput(surface.sourceIndex);
      }
      if surface.destinationIndex != UNASSIGNED {
        PushCapture(surface.destinationIndex);
      }
      surface.sourceIndex := UNASSIGNED;
      surface.destinationIndex := UNASSIGNED;
    }

    /** The struct assignment that moves the probe session into a context. */
    method Assign(from: DecoderSession)
      requires Valid() && from.Valid() && from != this && Apart(from)
      modifies this, freeOutput, freeCapture
      ensures Valid() && Value() == old(from.Value())
    {
      CopyFirst(freeOutput, from.freeOutput, from.freeOutputCount);
      CopyFirst(freeCapture, from.freeCapture, from.freeCaptureCount);
      format, streaming := from.format, from.streaming;
      numOutputBuffers, numCaptureBuffers := from.numOutputBuffers, from.numCaptureBuffers;
      nextOutputBuf, nextCaptureBuf := from.nextOutputBuf, from.nextCaptureBuf;
      freeOutputCount, freeCaptureCount := from.freeOutputCount, from.freeCaptureCount;
      books := from.books;
    }

    ghost predicate Apart(that: DecoderSession)
    {
      {freeOutput, freeCapture} !! {that.freeOutput, that.freeCapture}
    }
  }

  /** The part of the array a count covers; struct assignment copies all of it. */
  method CopyFirst(to: array<nat>, from: array<nat>, n: nat)
    requires to != from && to.Length == from.Length && n <= from.Length
    modifies to
    ensures to[..n] == from[..n]
  {
    forall i | 0 <= i < to.Length {
      to[i] := from[i];
    }
  }

  /** struct object_surface, as far as it concerns the pools. `sourceData` is whether the mapping is there. */
  class ObjectSurface {
    const id: int
    var status: Status
    var sourceIndex: int
    var sourceData: bool
    var destinationIndex: int
    var session: DecoderSession?
    var request: bool

    ghost predicate Valid()
      reads this
    {
      && sourceIndex >= UNASSIGNED && destinationIndex >= UNASSIGNED
      && (sourceData <==> sourceIndex != UNASSIGNED)
    }

    ghost function Value(): Surface
      reads this
    {
      Surface(status, if sourceIndex < 0 then None else Some(sourceIndex),
              if destinationIndex < 0 then None else Some(destinationIndex),
              if session == null then Nobody else session.name, request)
    }

    /** Comparing the pointer with this session's is comparing the names. */
    ghost predicate Points(that: DecoderSession)
      reads this
    {
      session != null ==> (session == that <==> session.name == that.name) && session.name != Nobody
    }

    constructor (i: int)
      ensures Valid() && Value() == NEW_SURFACE && id == i
    {
      id := i;
      status, sourceIndex, sourceData := Ready, UNASSIGNED, false;
      destinationIndex, session, request := UNASSIGNED, null, false;
    }
  }

  ghost predicate AllPoint(surfaces: seq<ObjectSurface>, that: DecoderSession)
    reads surfaces
  {
    forall i | 0 <= i < |surfaces| :: surfaces[i].Valid() && surfaces[i].Points(that)
  }

  ghost predicate NoTwice(surfaces: seq<ObjectSurface>)
  {
    forall i, j | 0 <= i < j < |surfaces| :: surfaces[i] != surfaces[j]
  }

  /** surface_detach_session over the surfaces the heap iterator visits. */
  method DetachSession(surfaces: seq<ObjectSurface>, session: DecoderSession)
    requires NoTwice(surfaces) && AllPoint(surfaces, session) && session.name != Nobody
    modifies surfaces
    ensures forall i | 0 <= i < |surfaces| ::
      surfaces[i].Valid() && surfaces[i].Value() == P.DetachFrom(old(surfaces[i].Value()), session.name)
  {
    var k := 0;
    while k < |surfaces|
      invariant 0 <= k <= |surfaces|
      invariant forall i | 0 <= i < k ::
        surfaces[i].Valid() && surfaces[i].Value() == P.DetachFrom(old(surfaces[i].Value()), session.name)
      invariant forall i | k <= i < |surfaces| :: unchanged(surfaces[i])
    {
      var surface := surfaces[k];
      assert surface.Points(session);
      if surface.session == session {
        surface.destinationIndex := UNASSIGNED;
        surface.sourceIndex := UNASSIGNED;
        surface.sourceData := false;
        surface.session := null;
      }
      k := k + 1;
    }
  }

  /** rewire_probe_surfaces. */
  method RewireSurfaces(surfaces: seq<ObjectSurface>, probe: DecoderSession, session: DecoderSession)
    requires NoTwice(surfaces) && AllPoint(surfaces, probe) && probe.name != Nobody
    modifies surfaces
    ensures forall i | 0 <= i < |surfaces| ::
      surfaces[i].Valid() && surfaces[i].Value() == P.MoveSession(old(surfaces[i].Value()), probe.name, session.name)
  {
    var k := 0;
    while k < |surfaces|
      invariant 0 <= k <= |surfaces|
      invariant forall i | 0 <= i < k ::
        surfaces[i].Valid() && surfaces[i].Value() == P.MoveSession(old(surfaces[i].Value()), probe.name, session.name)
      invariant forall i | k <= i < |surfaces| :: unchanged(surfaces[i])
    {
      var surface := surfaces[k];
      assert surface.Points(probe);
      if surface.session == probe {
        surface.session := session;
      }
      k := k + 1;
    }
  }

  /** context_adopt_probe_session; `matches` is session_matches_context's last four comparisons. */
  method AdoptProbeSession(surfaces: seq<ObjectSurface>, surface: ObjectSurface, session: DecoderSession,
                           probe: DecoderSession, matches: bool)
    returns (ok: bool)
    requires NoTwice(surfaces) && AllPoint(surfaces, probe) && surface in surfaces && surface.Points(session)
    requires session.Valid() && probe.Valid() && session != probe && session.Apart(probe)
    requires session.name != Probe && probe.name == Probe
    modifies surfaces, session, session.freeOutput, session.freeCapture, probe
    ensures session.Valid() && probe.Valid()
    ensures var t, u, v := old(session.Value()), old(surface.Value()), old(probe.Value());
      var mayAdopt := !t.streaming && t.output.next == 0 && t.capture.next == 0
        && v.format && v.capture.granted > 0 && matches;
      && ok == (u.session in {Nobody, session.name} || (u.session == Probe && mayAdopt))
      && (if u.session == Probe && mayAdopt then
            session.Value() == v && probe.Value() == CLOSED
            && forall i | 0 <= i < |surfaces| ::
                 surfaces[i].Value() == P.MoveSession(old(surfaces[i].Value()), Probe, session.name)
          else
            session.Value() == t && probe.Value() == v
            && forall i | 0 <= i < |surfaces| :: surfaces[i].Value() == old(surfaces[i].Value()))
  {
    if surface.session == null || surface.session == session {
      return true;
    }
    assert surface.Points(probe);
    if surface.session != probe {
      return false;
    }
    if session.streaming || session.nextOutputBuf != 0 || session.nextCaptureBuf != 0 {
      return false;
    }
    if !(probe.format && probe.numCaptureBuffers > 0 && matches) {
      return false;
    }
    session.Close();
    session.Assign(probe);
    RewireSurfaces(surfaces, probe, session);
    probe.Close();
    ok := true;
  }
}
