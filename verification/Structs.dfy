/** The records that cross the IPC boundary of the update service, with their integer widths. */
module Structs {

  const TWO_31 := 0x8000_0000
  const TWO_32 := 0x1_0000_0000
  const TWO_63 := 0x8000_0000_0000_0000
  const TWO_64 := 0x1_0000_0000_0000_0000

  type int32 = x: int | -TWO_31 <= x < TWO_31
  type uint32 = x: int | 0 <= x < TWO_32
  type int64 = x: int | -TWO_63 <= x < TWO_63
  type uint64 = x: int | 0 <= x < TWO_64

  datatype Option<+T> = None | Some(value: T)

  /** A conversion to an unsigned 32-bit integer keeps the low 32 bits. */
  function ToUint32(x: int): uint32 {
    x % TWO_32
  }

  /** Reads 32 bits as a two's complement number. */
  function Signed32(w: uint32): int32 {
    if w < TWO_31 then w else w - TWO_32
  }

  /** A conversion to a signed 32-bit integer keeps the low 32 bits. */
  function ToInt32(x: int): int32 {
    Signed32(ToUint32(x))
  }

  function ToInt64(x: int): int64 {
    var w := x % TWO_64;
    if w < TWO_63 then w else w - TWO_64
  }

  datatype UpgradeInfo = UpgradeInfo(upgradeApp: string, vendor: string, subType: int32,
                                     upgradeDevId: string, controlDevId: string)

  datatype ErrorMessage = ErrorMessage(errorCode: int32, errorMessage: string)

  datatype BusinessError = BusinessError(message: string, errorNum: int32, data: seq<ErrorMessage>)

  datatype DescriptionInfo = DescriptionInfo(descriptionType: int32, content: string)

  datatype ComponentDescription = ComponentDescription(componentId: string, descriptionInfo: DescriptionInfo)

  /** `size` and `effectiveMode` are `size_t` in the program but 32 bits wide on the wire. */
  datatype VersionComponent = VersionComponent(componentId: string, componentType: int32, upgradeAction: string,
                                               displayVersion: string, innerVersion: string, size: uint64,
                                               effectiveMode: uint64, descriptionInfo: DescriptionInfo,
                                               componentExtra: string)

  datatype NewVersionInfo = NewVersionInfo(versionDigest: string, versionComponents: seq<VersionComponent>)

  datatype CurrentVersionInfo = CurrentVersionInfo(osVersion: string, deviceName: string,
                                                   versionComponents: seq<VersionComponent>)

  datatype CheckResult = CheckResult(isExistNewVersion: bool, newVersionInfo: NewVersionInfo)

  datatype TaskBody = TaskBody(versionDigest: string, status: int32, subStatus: int32, progress: int32,
                               installMode: int32, errorMessages: seq<ErrorMessage>,
                               versionComponents: seq<VersionComponent>)

  datatype TaskInfo = TaskInfo(existTask: bool, taskBody: TaskBody)

  datatype EventInfo = EventInfo(eventId: int32, taskBody: TaskBody)

  datatype UpgradePeriod = UpgradePeriod(start: uint32, end: uint32)

  datatype UpgradePolicy = UpgradePolicy(downloadStrategy: bool, autoUpgradeStrategy: bool,
                                         period0: UpgradePeriod, period1: UpgradePeriod)

  datatype DescriptionOptions = DescriptionOptions(format: int32, language: string)

  datatype DownloadOptions = DownloadOptions(allowNetwork: int32, order: int32)
}
