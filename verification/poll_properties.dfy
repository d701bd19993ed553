/** Properties of the poll cycle that relate several calls, or a cycle to the
    command table and the merge. */
module PollProperties {

  import opened Wrappers
  import opened Const
  import opened Frame
  import opened Health
  import opened Poll

  /** The published fields are exactly the fields some command decoded, and a
      field decoded by several commands keeps the value of the last one. */
  lemma {:induction false} CyclePublishesLastWriter(dev: Device, env: Environment, k: string, j: nat)
    requires PollCycle(dev, env).outcome.Updated?
    requires dev.deviceType in Commands
    requires j < |Commands[dev.deviceType]|
    requires k in Decoded(Commands[dev.deviceType], env, dev.deviceType)[j]
    requires forall l :: j < l < |Commands[dev.deviceType]| ==>
      k !in Decoded(Commands[dev.deviceType], env, dev.deviceType)[l]
    ensures k in PollCycle(dev, env).outcome.data
    ensures PollCycle(dev, env).outcome.data[k] ==
      Decoded(Commands[dev.deviceType], env, dev.deviceType)[j][k]
  {
    MergeLastWriteWins(map[], Decoded(Commands[dev.deviceType], env, dev.deviceType), k, j);
  }

  lemma {:induction false} CyclePublishesOnlyDecodedFields(dev: Device, env: Environment, k: string)
    requires PollCycle(dev, env).outcome.Updated?
    requires dev.deviceType in Commands
    ensures k in PollCycle(dev, env).outcome.data <==>
      exists j :: 0 <= j < |Commands[dev.deviceType]| &&
        k in Decoded(Commands[dev.deviceType], env, dev.deviceType)[j]
  {
    MergeKeys(map[], Decoded(Commands[dev.deviceType], env, dev.deviceType), k);
  }

  /** The controller's frames always have a valid header, so a controller poll
      never fails on building a frame, and every header carries the unit id,
      function code 3 and twice the requested count. */
  lemma ControllerFramesBuild(i: nat, words: seq<Word>)
    requires i < |ControllerCommands|
    ensures BuildFrame(DefaultDeviceId, ControllerCommands[i].functionCode,
                       ControllerCommands[i].wordCount, words).Success?
    ensures BuildFrame(DefaultDeviceId, ControllerCommands[i].functionCode,
                       ControllerCommands[i].wordCount, words).value[..3]
      == [0xFF, 3, 2 * ControllerCommands[i].wordCount]
  {
    var r := BuildFrame(DefaultDeviceId, ControllerCommands[i].functionCode,
                        ControllerCommands[i].wordCount, words);
    assert r.value[..3] == [r.value[0], r.value[1], r.value[2]];
  }

  lemma {:induction false} ControllerNeverRejectsFrame(dev: Device, env: Environment)
    requires dev.deviceType == Controller.Value()
    ensures PollCycle(dev, env).outcome != UpdateFailed(Communication(FrameRejected))
  {
    var c := PollCycle(dev, env);
    if c.effects.attemptedConnect && env.connects && c.outcome.UpdateFailed? {
      var table := Commands[dev.deviceType];
      var k :| FirstFailure(table, env, dev.deviceType, 0, k, c.outcome.reason.error, c.effects.commandsRead);
      var o := OutcomeAt(env.outcomes, k);
      if o.Registers? {
        ControllerFramesBuild(k, o.words);
      }
    }
  }

  /** A device type without a table is not refused up front: the cycle calls
      `connect()`, finds no table, and counts it as one communication failure. */
  lemma UnsupportedTypeIsCountedFailure(dev: Device, env: Environment)
    requires dev.deviceType in {Battery.Value(), Inverter.Value()}
    requires env.parserAvailable && env.connects && IsAvailable(dev.health)
    ensures PollCycle(dev, env).outcome == UpdateFailed(Communication(UnsupportedDeviceType))
    ensures PollCycle(dev, env).effects == Effects(true, [], [false])
    ensures PollCycle(dev, env).device.health.failureCount == dev.health.failureCount + 1
  {
    OnlyControllerHasTable();
    assert dev.deviceType !in Commands;
    assert ShouldRetry(dev.health, env.startedAt).proceed;
  }

  /** The device after running the cycles `envs` one after another. */
  function DeviceAfter(dev: Device, envs: seq<Environment>): Device
    decreases |envs|
  {
    if |envs| == 0 then dev else DeviceAfter(PollCycle(dev, envs[0]).device, envs[1..])
  }

  /** Any run of cycles keeps the health invariant and the device identity. */
  lemma {:induction false} CyclesKeepInv(dev: Device, envs: seq<Environment>)
    requires Inv(dev.health)
    ensures Inv(DeviceAfter(dev, envs).health)
    ensures DeviceAfter(dev, envs).port == dev.port
    ensures DeviceAfter(dev, envs).deviceType == dev.deviceType
    decreases |envs|
  {
    if |envs| > 0 {
      CyclesKeepInv(PollCycle(dev, envs[0]).device, envs[1..]);
    }
  }

  /** While the link never connects, no cycle succeeds, so the last published
      snapshot stays visible however many cycles run. */
  lemma {:induction false} DeadLinkKeepsSnapshot(dev: Device, envs: seq<Environment>)
    requires forall i :: 0 <= i < |envs| ==> !envs[i].connects
    ensures DeviceAfter(dev, envs).parsedData == dev.parsedData
    decreases |envs|
  {
    if |envs| > 0 {
      DeadLinkKeepsSnapshot(PollCycle(dev, envs[0]).device, envs[1..]);
    }
  }

  function DeadLink(parse: Parser, at: int): Environment
  {
    Environment(true, parse, false, [], at, at)
  }

  /** Three failed polls at minute `t` mark a fresh device unavailable; every
      poll before a full retry interval has passed is refused before
      calling `connect()`, and a poll at any later minute calls it again. */
  lemma ThreeFailuresThenThrottled(parse: Parser, t: int)
    ensures
      var d0 := NewDevice("/dev/ttyUSB0", Controller.Value());
      var d3 := DeviceAfter(d0, [DeadLink(parse, t), DeadLink(parse, t), DeadLink(parse, t)]);
      && d3.health.failureCount == 3
      && !IsAvailable(d3.health)
      && d3.health.lastUnavailableTime == Some(t)
      && (forall u :: t <= u < t + UnavailableRetryInterval ==>
            && PollCycle(d3, DeadLink(parse, u)).outcome == UpdateFailed(MarkedUnavailable)
            && !PollCycle(d3, DeadLink(parse, u)).effects.attemptedConnect)
      && (forall u :: u >= t + UnavailableRetryInterval ==>
            PollCycle(d3, DeadLink(parse, u)).effects.attemptedConnect)
  {
    var d0 := NewDevice("/dev/ttyUSB0", Controller.Value());
    var e := DeadLink(parse, t);
    var d1 := PollCycle(d0, e).device;
    var d2 := PollCycle(d1, e).device;
    var d3 := PollCycle(d2, e).device;
    assert DeviceAfter(d0, [e, e, e]) == DeviceAfter(d1, [e, e]);
    assert DeviceAfter(d1, [e, e]) == DeviceAfter(d2, [e]);
    assert DeviceAfter(d2, [e]) == d3;
  }

  /** A failing poll leaves the published snapshot untouched: a timed-out read
      keeps a battery voltage of 12.6 and only the failure count moves. */
  lemma TimeoutKeepsSnapshot(parse: Parser, t: int)
    ensures
      var d := NewDevice("/dev/ttyUSB0", Controller.Value())
                 .(parsedData := map["battery_voltage" := Number(12.6)]);
      var c := PollCycle(d, Environment(true, parse, true, [TransportFault], t, t));
      && c.outcome == UpdateFailed(Communication(ReadFailed))
      && c.device.parsedData == map["battery_voltage" := Number(12.6)]
      && c.device.health.failureCount == 1
      && IsAvailable(c.device.health)
      && c.effects.commandsRead == [ControllerCommands[0]]
  {
    var d := NewDevice("/dev/ttyUSB0", Controller.Value())
               .(parsedData := map["battery_voltage" := Number(12.6)]);
    var env := Environment(true, parse, true, [TransportFault], t, t);
    assert StepAt(ControllerCommands, env, d.deviceType, 0) == Failure(ReadFailed);
  }
}
