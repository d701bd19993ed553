/** The static configuration of the integration: polling bounds, device
    types, the unavailable-retry interval, the Modbus unit id and the
    per-device-type register read table. */
module Const {

  import opened Wrappers

  /** Polling interval bounds, in seconds. */
  const DefaultScanInterval: int := 60
  const MinScanInterval: int := 10
  const MaxScanInterval: int := 600

  /** Minutes to wait before probing a device marked unavailable again. */
  const UnavailableRetryInterval: int := 10

  /** Modbus unit (slave) id of every Renogy device on the bus. */
  const DefaultDeviceId: int := 0xFF

  /** Function code of Modbus "Read Holding Registers" (section 6.3 of the
      MODBUS Application Protocol Specification V1.1b3). */
  const ReadHoldingRegisters: int := 3

  /** Largest quantity of registers one Read Holding Registers request may ask
      for (same section). */
  const MaxReadQuantity: int := 125

  datatype DeviceType = Controller | Battery | Inverter
  {
    /** The string the enumeration member stands for. */
    function Value(): string
    {
      match this
      case Controller => "controller"
      case Battery => "battery"
      case Inverter => "inverter"
    }
  }

  /** Every declared device type, in declaration order, as strings. */
  const DeviceTypes: seq<string> :=
    [Controller.Value(), Battery.Value(), Inverter.Value()]

  const DefaultDeviceType: string := Controller.Value()

  /** Device types the integration fully decodes. */
  const SupportedDeviceTypes: seq<string> := [Controller.Value()]

  /** One named read of the table: function code, first register, word count. */
  datatype Command = Command(name: string, functionCode: int, register: int, wordCount: int)

  /** The controller's read table, in the dictionary's insertion order. */
  const ControllerCommands: seq<Command> := [
    Command("device_info", 3, 12, 8),
    Command("device_id", 3, 26, 1),
    Command("battery", 3, 57348, 1),
    Command("pv", 3, 256, 34)
  ]

  /** The per-device-type command table, keyed by device-type string. */
  const Commands: map<string, seq<Command>> :=
    map[Controller.Value() := ControllerCommands]

  /** A command is a well-formed Read Holding Registers request. */
  predicate WellFormedCommand(c: Command)
  {
    && c.functionCode == ReadHoldingRegisters
    && 0 <= c.register < 0x1_0000
    && 1 <= c.wordCount <= MaxReadQuantity
  }

  /** The table for a device type; `None` is the `KeyError` of the lookup. */
  function LookupCommands(deviceType: string): (r: Option<seq<Command>>)
    ensures r.Some? <==> deviceType in SupportedDeviceTypes
    ensures deviceType in Commands ==> r == Some(Commands[deviceType])
    ensures r.Some? ==> r.value == ControllerCommands && |r.value| == 4
    ensures r.Some? ==> forall i :: 0 <= i < |r.value| ==> WellFormedCommand(r.value[i])
  {
    if deviceType in Commands then Some(Commands[deviceType]) else None
  }

  /** The controller's four reads, their names and their order. */
  lemma ControllerTableLayout()
    ensures Controller.Value() in Commands
    ensures |Commands[Controller.Value()]| == 4
    ensures Commands[Controller.Value()][0] == Command("device_info", 3, 12, 8)
    ensures Commands[Controller.Value()][1] == Command("device_id", 3, 26, 1)
    ensures Commands[Controller.Value()][2] == Command("battery", 3, 57348, 1)
    ensures Commands[Controller.Value()][3] == Command("pv", 3, 256, 34)
  {
  }

  /** Every entry of every table reads holding registers at a 16-bit address,
      and asks for 1 to 125 words, so its byte count fits in one byte. */
  lemma CommandTableWellFormed()
    ensures forall t, i :: t in Commands && 0 <= i < |Commands[t]| ==>
      WellFormedCommand(Commands[t][i]) && 0 <= 2 * Commands[t][i].wordCount < 256
  {
  }

  /** Only the controller has a table; battery and inverter are declared but
      have none. */
  lemma OnlyControllerHasTable()
    ensures Commands.Keys == {Controller.Value()}
    ensures Battery.Value() !in Commands && Inverter.Value() !in Commands
    ensures Battery.Value() in DeviceTypes && Inverter.Value() in DeviceTypes
  {
  }

  /** The device-type lists nest: table keys, then supported types, then all
      declared types; the default is supported. */
  lemma DeviceTypeListsNest()
    ensures forall t :: t in Commands ==> t in SupportedDeviceTypes
    ensures forall t :: t in SupportedDeviceTypes ==> t in DeviceTypes
    ensures DefaultDeviceType in SupportedDeviceTypes
    ensures |DeviceTypes| == 3
    ensures forall a: DeviceType, b: DeviceType :: a.Value() == b.Value() ==> a == b
  {
  }

  /** The scalar constants are consistent with each other and with the frame
      layout. */
  lemma ScalarConstantsConsistent()
    ensures MinScanInterval <= DefaultScanInterval <= MaxScanInterval
    ensures 0 <= DefaultDeviceId < 256
    ensures UnavailableRetryInterval > 0
  {
  }
}
