/** The exceptions Graphics throws, as one tagged value.
    HrException carries a failing HRESULT and the joined debug-layer messages;
    DeviceRemovedException derives from HrException and differs from it only in its
    type name; InfoException carries messages alone (a call that returns no HRESULT
    but made the debug layer complain). The source line and file every exception
    also records are not part of this model. */
module Exceptions {
  import opened HResults
  import opened InfoText

  datatype Exception =
    | HrException(hr: HResult, info: string)
    | DeviceRemovedException(hr: HResult, info: string)
    | InfoException(info: string)
  {
    /** Whether the exception is an HrException, including the DeviceRemovedException subclass. */
    predicate IsHrException() {
      HrException? || DeviceRemovedException?
    }

    /** HrException::GetErrorCode. */
    function ErrorCode(): (r: HResult)
      requires IsHrException()
      ensures this == HrException(r, info) || this == DeviceRemovedException(r, info)
    {
      hr
    }

    /** GetErrorInfo, on both HrException and InfoException. */
    function ErrorInfo(): (r: string)
      ensures r == info
    {
      info
    }

    /** GetType: the first line of every message. */
    function TypeName(): (r: string)
      ensures |r| >= 24 && (r[..24] == HrTypePrefix <==> IsHrException())
    {
      match this
      case HrException(_, _) => HrTypePrefix
      case DeviceRemovedException(_, _) => HrTypePrefix + " [Device Removed] (DXGI_ERROR_DEVICE_REMOVED)"
      case InfoException(_) =>
        var n := "Tesla Graphics Info Exception";
        assert n[15] == 'I' != HrTypePrefix[15];
        n
    }
  }

  /** The common start of the HrException and DeviceRemovedException type names. */
  const HrTypePrefix: string := "Tesla Graphics Exception"

  const InfoHeader: string := "\n[Error Info]\n"

  /** HrException::what (shared by DeviceRemovedException). `details` stands for the
      formatted error-code, error-string and description lines, `origin` for the
      origin string; both come from code this model leaves out. The [Error Info]
      block appears exactly when the info string is non-empty. */
  function HrWhat(e: Exception, details: string, origin: string): (r: string)
    requires e.IsHrException()
    ensures var k := |e.TypeName()| + 1 + |details|;
      k <= |r| && r[..k] == e.TypeName() + "\n" + details
    ensures e.info == "" <==> r == e.TypeName() + "\n" + details + origin
    ensures e.info != "" ==>
      var k := |e.TypeName()| + 1 + |details|;
      k + |InfoHeader| + |e.info| <= |r| && r[k..k + |InfoHeader| + |e.info|] == InfoHeader + e.info
  {
    var head := e.TypeName() + "\n" + details;
    var block := if e.info != "" then InfoHeader + e.info + "\n\n" else "";
    var s := head + block + origin;
    assert s[..|head|] == head;
    assert s[|head|..|head| + |block|] == block;
    assert e.info != "" ==> |s| > |head + origin|;
    assert e.info != "" ==> block[..|InfoHeader| + |e.info|] == InfoHeader + e.info;
    s
  }

  /** InfoException::what: the [Error Info] block is always present, even for empty info. */
  function InfoWhat(e: Exception, origin: string): (r: string)
    requires e.InfoException?
    ensures var k := |e.TypeName()| + 1;
      k + |InfoHeader| + |e.info| <= |r| && r[..k] == e.TypeName() + "\n" &&
      r[k..k + |InfoHeader| + |e.info|] == InfoHeader + e.info
    ensures |r| == |e.TypeName()| + |InfoHeader| + |e.info| + 3 + |origin|
  {
    var head := e.TypeName() + "\n";
    var s := head + InfoHeader + e.info + "\n\n" + origin;
    assert s[..|head|] == head;
    assert s[|head|..|head| + |InfoHeader| + |e.info|] == InfoHeader + e.info;
    s
  }

  /** The HrException constructor: appends every message and a newline, then drops
      the final newline if the text is not empty. */
  method NewHrException(hr: HResult, infoMsgs: seq<string>) returns (e: Exception)
    ensures e == HrException(hr, HrInfo(infoMsgs))
  {
    var info := "";
    for i := 0 to |infoMsgs|
      invariant info == Terminated(infoMsgs[..i], "\n")
    {
      TerminatedSnoc(infoMsgs[..i], infoMsgs[i], "\n");
      assert infoMsgs[..i + 1] == infoMsgs[..i] + [infoMsgs[i]];
      info := info + infoMsgs[i];
      info := info + ['\n'];
    }
    assert infoMsgs[..|infoMsgs|] == infoMsgs;
    if info != "" {
      TerminatedIsJoined(infoMsgs, "\n");
      info := info[..|info| - 1];
    }
    e := HrException(hr, info);
  }

  /** DeviceRemovedException inherits HrException's constructor. */
  method NewDeviceRemovedException(hr: HResult, infoMsgs: seq<string>) returns (e: Exception)
    ensures e == DeviceRemovedException(hr, HrInfo(infoMsgs))
  {
    var base := NewHrException(hr, infoMsgs);
    e := DeviceRemovedException(base.hr, base.info);
  }

  /** The InfoException constructor: appends every message and a blank line, then
      drops one final character if the text is not empty. */
  method NewInfoException(infoMsgs: seq<string>) returns (e: Exception)
    ensures e == InfoException(InfoExceptionInfo(infoMsgs))
  {
    var info := "";
    for i := 0 to |infoMsgs|
      invariant info == Terminated(infoMsgs[..i], "\n\n")
    {
      TerminatedSnoc(infoMsgs[..i], infoMsgs[i], "\n\n");
      assert infoMsgs[..i + 1] == infoMsgs[..i] + [infoMsgs[i]];
      info := info + infoMsgs[i];
      info := info + "\n\n";
    }
    assert infoMsgs[..|infoMsgs|] == infoMsgs;
    if info != "" {
      TerminatedIsJoined(infoMsgs, "\n\n");
      assert info == Join(infoMsgs, "\n\n") + "\n" + "\n";
      info := info[..|info| - 1];
    }
    e := InfoException(info);
  }

  /** A DeviceRemovedException is an HrException with the same code and info; only the type name differs. */
  lemma DeviceRemovedIsHrException(hr: HResult, infoMsgs: seq<string>)
    ensures var d := DeviceRemovedException(hr, HrInfo(infoMsgs));
      var h := HrException(hr, HrInfo(infoMsgs));
      d.IsHrException() && d.ErrorCode() == h.ErrorCode() && d.ErrorInfo() == h.ErrorInfo() &&
      d.TypeName() != h.TypeName()
  {
  }

  /** With the default empty message list, an HrException's message has no [Error Info] block. */
  lemma DefaultInfoOmitsBlock(hr: HResult, details: string, origin: string)
    ensures var e := HrException(hr, HrInfo([]));
      e.ErrorInfo() == "" && HrWhat(e, details, origin) == e.TypeName() + "\n" + details + origin
  {
  }
}
