/** Windows status codes as the graphics layer sees them.
    An HRESULT is a signed 32-bit integer; FAILED(hr) holds exactly when it is
    negative, and the error messages print it reinterpreted as an unsigned
    32-bit value. */
module HResults {

  newtype UInt32 = x: int | 0 <= x < 0x1_0000_0000

  newtype HResult = x: int | -0x8000_0000 <= x < 0x8000_0000

  /** The FAILED macro: the severity bit (bit 31) is set, i.e. the signed value is negative. */
  predicate Failed(hr: HResult): (r: bool)
    ensures r <==> (hr as int + 0x1_0000_0000) % 0x1_0000_0000 >= 0x8000_0000
  {
    hr < 0
  }

  /** Reading a 32-bit pattern as a signed HRESULT (two's complement). */
  function FromBits(u: UInt32): (hr: HResult)
    ensures Failed(hr) <==> u >= 0x8000_0000
    ensures ToBits(hr) == u
  {
    if u < 0x8000_0000 then u as int as HResult
    else (u as int - 0x1_0000_0000) as HResult
  }

  /** The unsigned reading `(unsigned long)hr` used when an error code is printed. */
  function ToBits(hr: HResult): (u: UInt32)
    ensures u >= 0x8000_0000 <==> Failed(hr)
  {
    if hr >= 0 then hr as int as UInt32
    else (hr as int + 0x1_0000_0000) as UInt32
  }

  lemma BitsRoundTrip(hr: HResult)
    ensures FromBits(ToBits(hr)) == hr
  {
  }

  /** DXGI_ERROR_DEVICE_REMOVED, 0x887A0005. */
  const DeviceRemovedCode: HResult := FromBits(0x887A_0005)

  lemma DeviceRemovedIsFailure()
    ensures Failed(DeviceRemovedCode)
    ensures ToBits(DeviceRemovedCode) == 0x887A_0005
    ensures DeviceRemovedCode as int == -2005270523
  {
  }
}
