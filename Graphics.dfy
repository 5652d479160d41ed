/** The frame presenter: the Graphics class's configuration, its CPU surface and
    the per-frame protocol that uploads the surface, draws it, renders the overlay
    and presents, throwing on failure.

    The Direct3D device, context, swap chain and the debug-layer message queue are
    not modelled as objects. What they report during one EndFrame is an input
    (a Backend value), and the calls EndFrame makes on them are returned as a list
    of Call events in the order they happen. */
module Graphics {
  import opened HResults
  import opened Surfaces
  import opened InfoText
  import opened Exceptions
  import opened Upload

  /** What the backend answers during one EndFrame: the HRESULT of Map, the debug
      messages it produced and the mapped texture it hands back (row pitch and memory),
      the debug messages produced by the draw call, and the HRESULT of Present with
      its debug messages. */
  datatype Backend = Backend(
    mapHr: HResult, mapInfo: seq<string>, mapped: MappedTexture,
    drawInfo: seq<string>,
    presentHr: HResult, presentInfo: seq<string>)

  /** Calls made on the backend and on the overlay library. */
  datatype Call =
    | OverlayNewFrame
    | Map
    | CopySurface
    | Unmap
    | Draw(vertexCount: nat)
    | OverlayRender
    | OverlayRenderDrawData
    | Present(syncInterval: UInt32)

  /** How EndFrame finishes: it returns normally or throws. */
  datatype Outcome = Ok | Threw(ex: Exception)

  /** The full-screen quad is two triangles. */
  const QuadVertexCount: nat := 6

  /** Every call of a frame that reaches Present, in order. */
  function FrameCalls(imGuiEnabled: bool, syncInterval: UInt32): seq<Call>
  {
    [Map, CopySurface, Unmap, Draw(QuadVertexCount), OverlayRender]
    + (if imGuiEnabled then [OverlayRenderDrawData] else [])
    + [Present(syncInterval)]
  }

  /** The overlay's draw data is rendered exactly when the overlay is enabled; the
      surface copy always precedes the draw, and Present comes last. */
  lemma FrameCallsOrder(imGuiEnabled: bool, syncInterval: UInt32)
    ensures var cs := FrameCalls(imGuiEnabled, syncInterval);
      OverlayRender in cs && (OverlayRenderDrawData in cs <==> imGuiEnabled) &&
      cs[1] == CopySurface && cs[3] == Draw(QuadVertexCount) && cs[|cs| - 1] == Present(syncInterval)
  {
  }

  /** The classification of Present's result at the end of EndFrame. */
  function ClassifyPresent(hr: HResult, infoMsgs: seq<string>): (r: Outcome)
    ensures r.Ok? <==> !Failed(hr)
    ensures r.Threw? ==> r.ex.IsHrException() && r.ex.ErrorCode() == hr && r.ex.ErrorInfo() == HrInfo(infoMsgs)
    ensures r.Threw? ==> (r.ex.DeviceRemovedException? <==> hr == DeviceRemovedCode)
  {
    if !Failed(hr) then Ok
    else if hr == DeviceRemovedCode then Threw(DeviceRemovedException(hr, HrInfo(infoMsgs)))
    else Threw(HrException(hr, HrInfo(infoMsgs)))
  }

  /** What one EndFrame does, given the overlay flag, the sync interval and the backend's answers. */
  datatype FrameReport = FrameReport(outcome: Outcome, calls: seq<Call>, uploaded: bool)

  function EndFrameSpec(imGuiEnabled: bool, syncInterval: UInt32, b: Backend): (r: FrameReport)
    // the calls happen in the fixed order, possibly cut short by an exception
    ensures r.calls <= FrameCalls(imGuiEnabled, syncInterval)
    // the surface is copied exactly when Map succeeds
    ensures r.uploaded <==> !Failed(b.mapHr)
    ensures r.uploaded <==> CopySurface in r.calls
    // a failing Map throws an HrException with Map's code and messages, and nothing follows it
    ensures Failed(b.mapHr) ==> r.calls == [Map] && r.outcome == Threw(HrException(b.mapHr, HrInfo(b.mapInfo)))
    // debug messages from the draw call throw an InfoException before the overlay and Present
    ensures !Failed(b.mapHr) && b.drawInfo != [] ==>
      r.calls == [Map, CopySurface, Unmap, Draw(QuadVertexCount)] &&
      r.outcome == Threw(InfoException(InfoExceptionInfo(b.drawInfo)))
    // Present is called exactly when Map succeeded and the draw produced no messages
    ensures r.calls == FrameCalls(imGuiEnabled, syncInterval) <==> !Failed(b.mapHr) && b.drawInfo == []
    ensures r.calls == FrameCalls(imGuiEnabled, syncInterval) ==> r.outcome == ClassifyPresent(b.presentHr, b.presentInfo)
    // a frame returns normally exactly when all three steps succeed
    ensures r.outcome.Ok? <==> !Failed(b.mapHr) && b.drawInfo == [] && !Failed(b.presentHr)
  {
    if Failed(b.mapHr) then
      FrameReport(Threw(HrException(b.mapHr, HrInfo(b.mapInfo))), [Map], false)
    else if b.drawInfo != [] then
      FrameReport(Threw(InfoException(InfoExceptionInfo(b.drawInfo))), [Map, CopySurface, Unmap, Draw(QuadVertexCount)], true)
    else
      FrameReport(ClassifyPresent(b.presentHr, b.presentInfo), FrameCalls(imGuiEnabled, syncInterval), true)
  }

  class Graphics {
    var imGuiEnabled: bool
    var syncInterval: UInt32
    /** The last frame-statistics text; its formatting is not part of this model. */
    var statsInfo: string
    /** pBuffer: the CPU framebuffer. */
    var surface: Surface
    /** The image the dynamic texture holds, as the sampler reads it: ScreenWidth x
        ScreenHeight texels, undefined until the first upload. */
    var texture: Surface

    /** The field initialisers; the surface and the texture are ScreenWidth x ScreenHeight
        by their type, their initial colours are not stated. */
    constructor ()
      ensures syncInterval == 1 && IsVSyncEnabled()
      ensures imGuiEnabled && IsImGuiEnabled()
      ensures statsInfo == "" && GetFrameStatistics() == ""
    {
      imGuiEnabled := true;
      syncInterval := 1;
      statsInfo := "";
      surface := Cleared(Black);
      texture := Cleared(Black);
    }

    function IsVSyncEnabled(): (r: bool)
      reads this
      ensures r <==> syncInterval != 0
    {
      syncInterval != 0
    }

    function IsImGuiEnabled(): (r: bool)
      reads this
      ensures r == imGuiEnabled
    {
      imGuiEnabled
    }

    function GetFrameStatistics(): (r: string)
      reads this
      ensures r == statsInfo
    {
      statsInfo
    }

    method EnableVSync()
      modifies this`syncInterval
      ensures syncInterval == 1 && IsVSyncEnabled()
    {
      syncInterval := 1;
    }

    method DisableVSync()
      modifies this`syncInterval
      ensures syncInterval == 0 && !IsVSyncEnabled()
    {
      syncInterval := 0;
    }

    method SetVSyncInterval(verticalSyncInterval: UInt32)
      modifies this`syncInterval
      ensures syncInterval == verticalSyncInterval
      ensures IsVSyncEnabled() <==> verticalSyncInterval != 0
    {
      syncInterval := verticalSyncInterval;
    }

    method EnableImGui()
      modifies this`imGuiEnabled
      ensures imGuiEnabled && IsImGuiEnabled()
    {
      imGuiEnabled := true;
    }

    method DisableImGui()
      modifies this`imGuiEnabled
      ensures !imGuiEnabled && !IsImGuiEnabled()
    {
      imGuiEnabled := false;
    }

    /** Clears the surface to black, whatever it held, and starts an overlay frame. */
    method BeginFrame() returns (calls: seq<Call>)
      modifies this`surface
      ensures forall x: nat, y: nat :: InBounds(x, y) ==> Pixel(surface, x, y) == Black
      ensures surface == Cleared(Black)
      ensures calls == [OverlayNewFrame]
    {
      surface := Cleared(Black);
      calls := [OverlayNewFrame];
    }

    method Clear(c: Color)
      modifies this`surface
      ensures forall x: nat, y: nat :: InBounds(x, y) ==> Pixel(surface, x, y) == c
      ensures surface == Cleared(c)
    {
      surface := Cleared(c);
    }

    method PutPixel(x: nat, y: nat, c: Color)
      requires InBounds(x, y)
      modifies this`surface
      ensures Pixel(surface, x, y) == c
      ensures forall x': nat, y': nat :: InBounds(x', y') && (x', y') != (x, y) ==> Pixel(surface, x', y') == Pixel(old(surface), x', y')
      ensures surface == WithPixel(old(surface), x, y, c)
    {
      surface := WithPixel(surface, x, y, c);
    }

    /** The overload taking separate channels: exactly PutPixel(x, y, Color(r, g, b)). */
    method PutPixelChannels(x: nat, y: nat, r: nat, g: nat, b: nat)
      requires InBounds(x, y)
      modifies this`surface
      ensures surface == WithPixel(old(surface), x, y, ColorOf(r, g, b))
    {
      PutPixel(x, y, ColorOf(r, g, b));
    }

    /** The copy between Map and Unmap: the surface written row by row at the mapped
        row pitch, and the texture then holds what the sampler reads there. */
    method CopySurfaceTo(m: MappedTexture)
      modifies this`texture
      ensures texture == surface
    {
      var shown := Texels(PitchedCopy(m, surface));
      assert shown == surface by {
        PitchedCopyShowsSurface(m, surface);
      }
      texture := shown;
    }

    /** One EndFrame: record the statistics text `stats`, then Map, copy, Unmap, Draw,
        overlay, Present, throwing as EndFrameSpec says. The copy is the row-by-row
        PitchedCopy, which honours the row pitch Map reports. */
    method EndFrame(stats: string, b: Backend) returns (outcome: Outcome, calls: seq<Call>)
      modifies this`statsInfo, this`texture
      ensures statsInfo == stats
      ensures var spec := EndFrameSpec(imGuiEnabled, syncInterval, b);
        outcome == spec.outcome && calls == spec.calls &&
        texture == (if spec.uploaded then surface else old(texture))
    {
      statsInfo := stats;
      calls := [Map];
      if Failed(b.mapHr) {
        var e := NewHrException(b.mapHr, b.mapInfo);
        return Threw(e), calls;
      }
      CopySurfaceTo(b.mapped);
      calls := calls + [CopySurface, Unmap, Draw(QuadVertexCount)];
      if b.drawInfo != [] {
        var e := NewInfoException(b.drawInfo);
        return Threw(e), calls;
      }
      calls := calls + [OverlayRender];
      if imGuiEnabled {
        calls := calls + [OverlayRenderDrawData];
      }
      calls := calls + [Present(syncInterval)];
      if Failed(b.presentHr) {
        if b.presentHr == DeviceRemovedCode {
          var e := NewDeviceRemovedException(b.presentHr, b.presentInfo);
          outcome := Threw(e);
        } else {
          var e := NewHrException(b.presentHr, b.presentInfo);
          outcome := Threw(e);
        }
      } else {
        outcome := Ok;
      }
    }
  }

  /** A frame as the application drives it: BeginFrame, one pixel, EndFrame. When the
      upload happens, the texture holds that pixel and black everywhere else. */
  method OnePixelFrame(gfx: Graphics, x: nat, y: nat, c: Color, stats: string, b: Backend)
      returns (outcome: Outcome)
    requires InBounds(x, y)
    modifies gfx
    ensures !Failed(b.mapHr) ==> gfx.texture == WithPixel(Cleared(Black), x, y, c)
    ensures !Failed(b.mapHr) ==> forall x': nat, y': nat :: InBounds(x', y') ==>
      Pixel(gfx.texture, x', y') == if (x', y') == (x, y) then c else Black
  {
    var begin := gfx.BeginFrame();
    gfx.PutPixel(x, y, c);
    var calls;
    outcome, calls := gfx.EndFrame(stats, b);
  }
}
