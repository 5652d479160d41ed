# Graphics frame presenter of the Tesla DirectX framework

This project models the `Graphics` class of the Tesla DirectX framework in Dafny. The model covers four parts:

- **Configuration.** The V-sync interval and the ImGui overlay flag, with their setters and queries, and the frame-statistics string.
- **CPU surface.** The `pBuffer` framebuffer is a row-major sequence of `ScreenWidth*ScreenHeight` (800×600) colours. `Clear` and both defined `PutPixel` overloads write to it.
- **Per-frame protocol.** `BeginFrame` clears the surface to black and starts an overlay frame. `EndFrame` runs these steps in order:
  1. records the statistics text;
  2. maps the dynamic texture;
  3. copies the whole surface into it; the model copies row by row at the row pitch Map reports, where the source does one contiguous memcpy (see "## Findings");
  4. unmaps it;
  5. draws the 6-vertex quad;
  6. renders the overlay, sending its draw data only when the overlay is enabled;
  7. presents with the configured interval;
  8. classifies the result.
- **Exceptions.** `HrException`, `DeviceRemovedException` and `InfoException` form one tagged value (`Exceptions.Exception`). Their constructors build the `info` text with the same loops as the C++. HrException's (and DeviceRemovedException's) `what()` includes the `[Error Info]` block only when the info text is non-empty; InfoException's always includes it.

The Direct3D device, swap chain and the DXGI debug-message queue are not objects here. A `Backend` value supplies what they report during one `EndFrame`:

- the HRESULT of `Map`, the debug messages produced around it, and the mapped texture it hands back (row pitch and memory);
- the debug messages produced around `Draw`;
- the HRESULT of `Present` and its messages.

`EndFrame` returns the calls it made on the device and on the overlay library as a list of `Call` events. `EndFrameSpec` is the function that states the protocol. `Graphics.Graphics.EndFrame` is the imperative method. It builds its exceptions with the looping constructors and is proved to agree with `EndFrameSpec`.

HRESULTs are signed 32-bit values (`HResults.HResult`). `FAILED(hr)` means `hr < 0`. `DXGI_ERROR_DEVICE_REMOVED` is the bit pattern 0x887A0005 read as a signed value, which is −2005270523.

Files:

- `HResults.dfy`: HRESULT values and the device-removed code.
- `Surfaces.dfy`: colours, the surface and its pixel functions.
- `Upload.dfy`: the mapped texture, its row pitch, the copy as written and the row-by-row copy.
- `InfoText.dfy`: the joined info text, its reference definitions and the lemmas about them.
- `Exceptions.dfy`: the exception variants, `what()` and the constructors.
- `Graphics.dfy`: the class and the frame protocol.

## Design decisions

- **BeginFrame.** `Graphics.h:56` declares `BeginFrame(bool clear = true, Color clearColor = Color::Black)`. The definition at `Graphics.cpp:220` takes no arguments and always clears to `{0,0,0}`. The model has the definition's form. The mismatch is left as it is in the source.
- **Pair overload of PutPixel.** `PutPixel(const std::pair<…>&, Color)` is declared at `Graphics.h:66` but defined nowhere, so the model has no such operation.
- **Pixel bounds.** Graphics has no out-of-bounds error path. `PutPixel` requires `x < ScreenWidth && y < ScreenHeight`; any checking inside `Surface` is not part of this model.
- **After a device removal.** Nothing in Graphics refuses frames after a `DeviceRemovedException`. The exception is returned as the frame's outcome and the object stays usable.
- **Draw messages.** `EndFrame` can also throw an `InfoException` when the debug layer reports messages around `Draw` (`Graphics.cpp:243`), so the outcome has that case too.
- **Frame statistics.** The statistics text comes from ImGui's frame-rate counter (`Graphics.cpp:196-208`). The resulting text is an input of `EndFrame`.

## Model

| member | source | states |
|---|---|---|
| HResults.FromBits | hw3d_tesla/Graphics.cpp:255 | reading a 32-bit pattern as an HRESULT gives a failing code exactly when bit 31 is set, and reading it back unsigned gives the pattern |
| HResults.ToBits | hw3d_tesla/Graphics.cpp:340-341 | the unsigned reading `(unsigned long)hr` printed in `what()` is at least 0x80000000 exactly when the code is FAILED |
| HResults.BitsRoundTrip | hw3d_tesla/Graphics.cpp:340-341 | the unsigned reading loses nothing: converting back gives the original HRESULT |
| HResults.Failed | hw3d_tesla/Graphics.cpp:255 | `FAILED(hr)` holds exactly when bit 31 (the severity bit) of the 32-bit code is set |
| HResults.DeviceRemovedIsFailure | hw3d_tesla/Graphics.cpp:255-259 | DXGI_ERROR_DEVICE_REMOVED (0x887A0005, signed −2005270523) is a FAILED code, so the device-removed branch can be reached |
| Surfaces.Index | hw3d_tesla/Graphics.h:91-93 | pixel (x, y) of the 800×600 surface lives at a row-major position below ScreenWidth*ScreenHeight whose column is x and whose row is y |
| Surfaces.IndexInjective | hw3d_tesla/Graphics.cpp:308-311 | two in-bounds coordinates share a buffer cell only if they are equal |
| Surfaces.Cleared | hw3d_tesla/Graphics.cpp:268-271 | clearing with c makes every in-bounds pixel equal c, whatever was there before |
| Surfaces.WithPixel | hw3d_tesla/Graphics.cpp:308-311 | writing c at (x, y) sets that pixel to c and leaves every other pixel unchanged |
| Surfaces.ColorOf | hw3d_tesla/Graphics.cpp:313-316 | `Color(r, g, b)` from unsigned ints keeps every channel exactly when the three are below 256 |
| Upload.Offset | hw3d_tesla/Graphics.cpp:238-239 | texel (x, y) lives at a position inside the mapped memory whose quotient and remainder by the row pitch are y and x |
| Upload.Texels | hw3d_tesla/Graphics.cpp:238-240 | the image the sampler sees has at (x, y) the mapped memory's colour at that texel's pitched position |
| Upload.ContiguousCopy | hw3d_tesla/Graphics.cpp:239 | the memcpy as written: the first ScreenWidth*ScreenHeight colours of the mapped memory become the surface and the rest is untouched, whatever the row pitch |
| Upload.ContiguousCopyUnpadded | hw3d_tesla/Graphics.cpp:239 | when the row pitch is exactly ScreenWidth pixels, the copy as written shows exactly the surface |
| Upload.ContiguousCopySkewsPaddedRows | hw3d_tesla/Graphics.cpp:239 | with rows padded to 832 pixels, the copy as written shows black at (0, 1) for a surface whose pixel (0, 1) is white, so the image differs from the surface |
| Upload.PitchedCopy | hw3d_tesla/Graphics.cpp:238-239 | the row-by-row copy puts surface pixel (x, y) at texel (x, y)'s pitched position and leaves row padding untouched |
| Upload.PitchedCopyShowsSurface | hw3d_tesla/Graphics.cpp:238-239 | whatever row pitch Map reports, the row-by-row copy shows exactly the surface |
| InfoText.HrInfo | hw3d_tesla/Graphics.cpp:323-333 | HrException's info is the messages joined with single newlines: "" for no messages, the message itself for one |
| InfoText.HrInfoSplits | hw3d_tesla/Graphics.cpp:323-333 | when no message contains a newline, splitting HrException's info at newlines gives back exactly the messages, so the join loses and merges nothing |
| InfoText.InfoExceptionInfo | hw3d_tesla/Graphics.cpp:389-397 | InfoException's info is empty exactly for no messages, and otherwise ends in a newline |
| InfoText.InfoExceptionInfoLength | hw3d_tesla/Graphics.cpp:389-397 | for n > 0 messages, InfoException's info has length (sum of message lengths) + 2n − 1 |
| Exceptions.Exception.TypeName | hw3d_tesla/Graphics.cpp:353-356 | GetType: the name begins "Tesla Graphics Exception" exactly for HrException and its DeviceRemovedException subclass (the three bodies are at Graphics.cpp:353-356, 380-383 and 410-413) |
| Exceptions.Exception.ErrorCode | hw3d_tesla/Graphics.cpp:358-361 | GetErrorCode returns the code the HrException or DeviceRemovedException was built with |
| Exceptions.Exception.ErrorInfo | hw3d_tesla/Graphics.cpp:375-378 | GetErrorInfo returns the stored info text (InfoException's version is at Graphics.cpp:415-418) |
| Exceptions.NewHrException | hw3d_tesla/Graphics.cpp:318-334 | the constructor's append-then-pop_back loop yields exactly the newline join of the messages, with the given code |
| Exceptions.NewDeviceRemovedException | hw3d_tesla/Graphics.h:42-49 | the inherited constructor gives a DeviceRemovedException with the given code and the same info as an HrException |
| Exceptions.NewInfoException | hw3d_tesla/Graphics.cpp:385-398 | the constructor's loop, which appends "\n\n" after each message and then drops one character, yields exactly the messages separated by "\n\n" with one trailing "\n" |
| Exceptions.DeviceRemovedIsHrException | hw3d_tesla/Graphics.cpp:380-383 | a DeviceRemovedException is an HrException with the same code and info; only its type name differs |
| Exceptions.DefaultInfoOmitsBlock | hw3d_tesla/Graphics.h:21 | with the default empty message list the info is "", and `what()` has no [Error Info] block |
| Exceptions.HrWhat | hw3d_tesla/Graphics.cpp:336-351 | `what()` starts with the type line and the error lines; it has no [Error Info] block exactly when the info is empty, and otherwise holds the header followed by the info right after the error lines |
| Exceptions.InfoWhat | hw3d_tesla/Graphics.cpp:400-408 | InfoException's `what()` always holds the [Error Info] header followed by the info right after the type line, even when the info is empty |
| Graphics.FrameCallsOrder | hw3d_tesla/Graphics.cpp:236-255 | a complete frame copies before it draws and presents last; ImGui::Render always runs, and the draw data is rendered exactly when the overlay is enabled |
| Graphics.ClassifyPresent | hw3d_tesla/Graphics.cpp:255-265 | Present returns normally exactly when its HRESULT does not fail. Otherwise it throws an HrException-family exception carrying that code and the joined messages; the exception is a DeviceRemovedException exactly when the code is DXGI_ERROR_DEVICE_REMOVED |
| Graphics.EndFrameSpec | hw3d_tesla/Graphics.cpp:230-266 | the calls follow the fixed order, possibly cut short. The surface is copied exactly when Map succeeds. A failing Map throws its HrException with nothing after it. Draw messages throw an InfoException before the overlay and Present. Present happens exactly when Map succeeded and the draw was silent. The frame returns normally exactly when all three steps succeed |
| Graphics.Graphics.constructor | hw3d_tesla/Graphics.h:73-75 | a new Graphics has interval 1, so V-sync is on; the overlay is on; the statistics string is empty. The surface and texture are 800×600 by type, with unstated contents |
| Graphics.Graphics.IsVSyncEnabled | hw3d_tesla/Graphics.cpp:288-291 | returns whether the interval is not 0 |
| Graphics.Graphics.IsImGuiEnabled | hw3d_tesla/Graphics.cpp:303-306 | returns the overlay flag |
| Graphics.Graphics.GetFrameStatistics | hw3d_tesla/Graphics.cpp:210-213 | returns the last statistics text, "" until the first EndFrame |
| Graphics.Graphics.EnableVSync | hw3d_tesla/Graphics.cpp:273-276 | the interval becomes 1 and V-sync reports enabled; no other field changes |
| Graphics.Graphics.DisableVSync | hw3d_tesla/Graphics.cpp:278-281 | the interval becomes 0 and V-sync reports disabled; no other field changes |
| Graphics.Graphics.SetVSyncInterval | hw3d_tesla/Graphics.cpp:283-291 | the interval becomes n, and V-sync reports enabled exactly when n ≠ 0; no other field changes |
| Graphics.Graphics.EnableImGui | hw3d_tesla/Graphics.cpp:293-296 | the overlay flag becomes true and the query returns it; no other field changes |
| Graphics.Graphics.DisableImGui | hw3d_tesla/Graphics.cpp:298-306 | the overlay flag becomes false and the query returns it; no other field changes |
| Graphics.Graphics.BeginFrame | hw3d_tesla/Graphics.cpp:220-228 | every surface pixel becomes black whatever was there, and an overlay frame is started; nothing else changes |
| Graphics.Graphics.Clear | hw3d_tesla/Graphics.cpp:268-271 | every surface pixel becomes the given colour; nothing else changes |
| Graphics.Graphics.PutPixel | hw3d_tesla/Graphics.cpp:308-311 | pixel (x, y) becomes c and every other pixel keeps its old colour; nothing else changes |
| Graphics.Graphics.PutPixelChannels | hw3d_tesla/Graphics.cpp:313-316 | has exactly the effect of PutPixel(x, y, Color(r, g, b)) |
| Graphics.Graphics.CopySurfaceTo | hw3d_tesla/Graphics.cpp:239 | after the copy between Map and Unmap, the texture shows exactly the surface, whatever row pitch Map reported (the corrected, row-by-row copy of the Findings row); only the texture changes |
| Graphics.Graphics.EndFrame | hw3d_tesla/Graphics.cpp:230-266 | the step-by-step method agrees with EndFrameSpec. The statistics text is replaced. When Map succeeds, the row-by-row copy makes the texture show exactly the ScreenWidth*ScreenHeight surface, whatever the row pitch; otherwise the texture is untouched. The surface and the configuration do not change |
| Graphics.OnePixelFrame | hw3d_tesla/Game.cpp:11-26 | BeginFrame, one PutPixel, then EndFrame: when the upload happens, the texture has that pixel's colour at (x, y) and black everywhere else |

## Findings

| source | as written | input that shows it | evidently intended | confidence | as-written member | corrected member |
|---|---|---|---|---|---|---|
| hw3d_tesla/Graphics.cpp:239 | one `memcpy` of ScreenWidth*ScreenHeight*sizeof(Color) contiguous bytes into `msr.pData`; `msr.RowPitch` is never read | Map reports a row pitch of 3328 bytes (832 pixels) for the 800-pixel-wide texture; a surface that is black except for white at (0, 1) then shows black at (0, 1), because texture row 1 starts at the surface's pixel (32, 1) | copy each surface row to `pData + y*RowPitch`, so texel (x, y) shows surface pixel (x, y) for every row pitch | medium, not executed; the copy is right whenever the driver does not pad rows | Upload.ContiguousCopySkewsPaddedRows | Upload.PitchedCopyShowsSurface |

## Left out

- Device, swap-chain, render-target, shader, vertex-buffer, input-layout, viewport, texture and sampler creation in the constructor (`Graphics.cpp:26-194`): one-time Direct3D calls with no logic. The vertex data is floating point.
- UpdateFrameStatistics (`Graphics.cpp:196-208`): float division and fixed-precision stream formatting of ImGui values. Its result enters `EndFrame` as the `stats` parameter.
- ImGui and the Direct3D calls themselves (NewFrame, Render, RenderDrawData, Map, Unmap, Draw, Present, Shutdown): they are external libraries. They appear only as `Call` events, and their results are `Backend` inputs. The destructor's ImGui shutdown is not modelled.
- DXGetErrorString, DXGetErrorDescription, the hexadecimal and decimal stream formatting in `what()`, and GetOriginString: these are foreign or not shown. Their text is the `details` and `origin` parameters of `HrWhat` and `InfoWhat`. The line and file every exception records are not kept.
- DxgiInfoManager: it is not shown. The messages it collects between `Set()` and `GetMessages()` are the message lists in `Backend`. Only the debug configuration is modelled (`Graphics.cpp:14-18`). In release builds the info lists are always empty and the Draw check disappears.
- The unused `reason` member of DeviceRemovedException (`Graphics.h:48`) and the `title` and `PixelSize` members are not modelled.
- `Surface.h` and the Color definition are not part of this model. The surface is an abstract sequence of colours. `ColorOf` assumes Color's channel constructor narrows each `unsigned int` to 8 bits, as an `unsigned char` parameter would.
- Graphics.Graphics.constructor: does not state the initial colours of the surface or the texture. The Surface constructor is not shown, and the texture is created without initial data.
- Graphics.Graphics.EndFrame: uses the row-by-row copy (`Upload.PitchedCopy`). The source's single memcpy (`Upload.ContiguousCopy`) gives the same image only when the mapped row pitch is exactly ScreenWidth*sizeof(Color) bytes (`Upload.ContiguousCopyUnpadded`); see "## Findings".
- Graphics.Graphics.CopySurfaceTo: uses the row-by-row copy (`Upload.PitchedCopy`), so the texture shows the surface for every row pitch. The memcpy at `Graphics.cpp:239` gives that only when the row pitch is exactly ScreenWidth*sizeof(Color) bytes (`Upload.ContiguousCopyUnpadded`); see "## Findings".
- Graphics.OnePixelFrame: rests on `CopySurfaceTo`, so it uses the row-by-row copy (`Upload.PitchedCopy`). With the memcpy at `Graphics.cpp:239`, the texture shows that one pixel on black only when the row pitch is exactly ScreenWidth*sizeof(Color) bytes; at a padded pitch the image is skewed (`Upload.ContiguousCopySkewsPaddedRows`).
- Row pitches are counted in whole pixels. A byte pitch that is not a multiple of sizeof(Color) is not modelled.
- The pair overload of PutPixel (`Graphics.h:66`): it is declared but never defined.
- Game.cpp's window construction and empty UpdateModel: application glue. Only its frame sequence is used, in `OnePixelFrame`.
