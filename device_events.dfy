/** The device-change notification handling: which sub-codes of
    WM_DEVICECHANGE are handled, and which of the branches of
    handleDeviceArrivalOrRemoval a broadcast selects. Only the choice of
    branch and the data it reports are modelled; the console text is not. */
module DeviceEvents {
  import opened Options
  import opened VolumeLetters

  /** Sub-codes carried in the WPARAM of WM_DEVICECHANGE (dbt.h). */
  const DeviceArrival: nat := 0x8000
  const DeviceQueryRemove: nat := 0x8001
  const DeviceRemoveComplete: nat := 0x8004

  /** Device types in the header of a broadcast (dbt.h). */
  const DevTypeVolume: bv32 := 0x2
  const DevTypePort: bv32 := 0x3
  const DevTypeDeviceInterface: bv32 := 0x5

  /** Flags of a volume broadcast (dbt.h). */
  const FlagMedia: bv16 := 0x1
  const FlagNet: bv16 := 0x2

  /** The word the handler passes on: "Removed" or "Connected". */
  datatype Action = Removed | Connected

  /** The fields of a broadcast the handler reads. Which of them mean
      something depends on `deviceType`: `name` for a device interface or a
      port, `flags` and `unitMask` for a volume. */
  datatype Broadcast = Broadcast(deviceType: bv32, name: string, flags: bv16, unitMask: bv32)

  datatype VolumeKind = MediaVolume | NetworkVolume | PlainVolume

  /** The branch handleDeviceArrivalOrRemoval takes, with the data it reports.
      `letters` is the decoded unit mask; an empty one is reported as "No
      volumes were mounted". `hasName` tells the two device-interface
      messages apart (a name longer than one character). */
  datatype Notice =
    | InterfaceNotice(action: Action, hasName: bool)
    | VolumeNotice(action: Action, kind: VolumeKind, letters: string)
    | PortNotice(action: Action, portName: string)

  /** Sub-code dispatch of the WM_DEVICECHANGE handler: removal-complete and
      arrival are handled, every other sub-code is passed over. */
  function ActionFor(subCode: nat): (r: Option<Action>)
    ensures r == Some(Removed) <==> subCode == DeviceRemoveComplete
    ensures r == Some(Connected) <==> subCode == DeviceArrival
    ensures r == None <==> subCode != DeviceRemoveComplete && subCode != DeviceArrival
  {
    if subCode == DeviceRemoveComplete then Some(Removed)
    else if subCode == DeviceArrival then Some(Connected)
    else None
  }

  /** Volume flag classification: the media flag is tested first. */
  function ClassifyVolume(flags: bv16): VolumeKind {
    if flags & FlagMedia != 0 then MediaVolume
    else if flags & FlagNet != 0 then NetworkVolume
    else PlainVolume
  }

  /** The media flag takes precedence over the network flag, the network flag
      alone gives a network volume, and no other bit of the flags matters. */
  lemma ClassifyVolumeByFlags(flags: bv16)
    ensures flags & FlagMedia != 0 ==> ClassifyVolume(flags) == MediaVolume
    ensures ClassifyVolume(flags) == NetworkVolume <==> flags & 3 == FlagNet
    ensures ClassifyVolume(flags) == PlainVolume <==> flags & 3 == 0
    ensures ClassifyVolume(flags) == ClassifyVolume(flags & 3)
  {
  }

  /** handleDeviceArrivalOrRemoval: the three device-type tests, of which at
      most one can hold; any other device type reports nothing. */
  function Describe(action: Action, b: Broadcast): (r: Option<Notice>)
    ensures r.Some? <==>
              b.deviceType == DevTypeDeviceInterface || b.deviceType == DevTypeVolume ||
              b.deviceType == DevTypePort
    ensures r.Some? ==> r.value.action == action
  {
    if b.deviceType == DevTypeDeviceInterface then Some(InterfaceNotice(action, |b.name| > 1))
    else if b.deviceType == DevTypeVolume then Some(VolumeNotice(action, ClassifyVolume(b.flags), Unmasked(b.unitMask)))
    else if b.deviceType == DevTypePort then Some(PortNotice(action, b.name))
    else None
  }

  /** The WM_DEVICECHANGE handler: dispatch on the sub-code, then describe. */
  function OnDeviceChange(subCode: nat, b: Broadcast): (r: Option<Notice>)
    ensures ActionFor(subCode) == None ==> r == None
    ensures r.Some? ==> ActionFor(subCode) == Some(r.value.action)
  {
    match ActionFor(subCode)
    case None => None
    case Some(action) => Describe(action, b)
  }

  /** The handler reports something exactly for an arrival or a removal of a
      device interface, a volume or a port, and the report carries the word
      the sub-code selects. A device interface is reported as named when its
      name is longer than one character, a port with its name, and a volume
      with its classified flags and its decoded unit mask. A query-remove
      request is never handled. */
  lemma OnDeviceChangeReports(subCode: nat, b: Broadcast)
    ensures OnDeviceChange(subCode, b).Some? <==>
              (subCode == DeviceArrival || subCode == DeviceRemoveComplete) &&
              (b.deviceType == DevTypeDeviceInterface || b.deviceType == DevTypeVolume ||
               b.deviceType == DevTypePort)
    ensures OnDeviceChange(subCode, b).Some? ==>
              OnDeviceChange(subCode, b).value.action ==
                (if subCode == DeviceArrival then Connected else Removed)
    ensures OnDeviceChange(subCode, b).Some? && b.deviceType == DevTypeDeviceInterface ==>
              OnDeviceChange(subCode, b).value == InterfaceNotice(OnDeviceChange(subCode, b).value.action, |b.name| > 1)
    ensures OnDeviceChange(subCode, b).Some? && b.deviceType == DevTypePort ==>
              OnDeviceChange(subCode, b).value == PortNotice(OnDeviceChange(subCode, b).value.action, b.name)
    ensures OnDeviceChange(subCode, b).Some? && b.deviceType == DevTypeVolume ==>
              && OnDeviceChange(subCode, b).value.VolumeNotice?
              && OnDeviceChange(subCode, b).value.kind == ClassifyVolume(b.flags)
              && OnDeviceChange(subCode, b).value.letters == Unmasked(b.unitMask)
    ensures OnDeviceChange(DeviceQueryRemove, b) == None
  {
  }

  /** A volume broadcast reports exactly the drives its unit mask names among
      'A' to 'Y', in ascending order, and reports "No volumes were mounted"
      exactly when none of mask bits 0 to 24 is set, so a mask naming only
      drive Z is reported as no volumes. */
  lemma VolumeNoticeLetters(action: Action, b: Broadcast)
    requires b.deviceType == DevTypeVolume
    ensures Describe(action, b).Some? && Describe(action, b).value.VolumeNotice?
    ensures var letters := Describe(action, b).value.letters;
      && (forall c :: c in letters <==> IsReported(b.unitMask, c))
      && Ascending(letters)
      && (letters == [] <==> b.unitMask & LowBits == 0)
  {
    var letters := Unmasked(b.unitMask);
    assert Describe(action, b) == Some(VolumeNotice(action, ClassifyVolume(b.flags), letters));
    forall c ensures c in letters <==> IsReported(b.unitMask, c) {
      UnmaskedMembers(b.unitMask, c);
    }
    UnmaskedShape(b.unitMask);
    UnmaskedEmpty(b.unitMask);
  }
}
