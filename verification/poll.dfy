/** One poll cycle of the active UART coordinator: consult the retry throttle,
    connect, read every command of the device type's table in order, rebuild
    each response frame, decode it, merge the decoded fields, and commit the
    whole result or nothing. The serial transport and the field decoder are
    outside the model: the cycle receives their outcomes as an `Environment`. */
module Poll {

  import opened Wrappers
  import opened Const
  import opened Frame
  import opened Health

  /** A decoded field value: the decoder yields numbers and strings. */
  datatype Value = Number(n: real) | Text(s: string)

  /** Field name to value, as published to the sensors. */
  type Snapshot = map<string, Value>

  /** What the transport answered to one register read. */
  datatype ReadOutcome =
    | Registers(words: seq<Word>)  // a normal response carrying these words
    | ErrorResponse                // a Modbus exception response (`isError()`)
    | TransportFault               // the read raised (timeout, I/O, protocol)

  /** The decoder: frame, device type and first register to decoded fields;
      `None` when it raises. Deterministic by construction. */
  type Parser = (seq<Byte>, string, int) -> Option<Snapshot>

  /** Everything the cycle learns from outside the model. */
  datatype Environment = Environment(
    parserAvailable: bool,        // whether the decoder library was importable
    parse: Parser,
    connects: bool,               // whether `connect()` returns normally
    outcomes: seq<ReadOutcome>,   // the answer to the i-th read of this cycle
    startedAt: int,               // clock reading of the retry throttle
    finishedAt: int)              // clock reading of the availability report

  /** The exception a communication failure stands for. */
  datatype PollError =
    | ConnectFailed
    | UnsupportedDeviceType   // the `KeyError` of the command-table lookup
    | DeviceError             // an error response, re-raised as ModbusException
    | ReadFailed
    | FrameRejected           // `bytes([...])` refused a header value
    | DecodeFailed

  datatype FailReason =
    | ParserMissing
    | MarkedUnavailable
    | Communication(error: PollError)

  /** What the cycle hands back to the scheduler: the fresh data or the
      `UpdateFailed` it raises. */
  datatype Outcome = Updated(data: Snapshot) | UpdateFailed(reason: FailReason)

  /** The device record the coordinator owns. */
  datatype Device = Device(port: string, deviceType: string, health: Health, parsedData: Snapshot)

  /** Observable side effects of a cycle: whether it called `connect()`
      (whether or not that call succeeded), the commands it read in order, and
      the availability reports it made in order. */
  datatype Effects = Effects(attemptedConnect: bool, commandsRead: seq<Command>, reports: seq<bool>)

  datatype Cycle = Cycle(outcome: Outcome, device: Device, effects: Effects)

  /** Read outcomes beyond those supplied are timeouts. */
  function OutcomeAt(outcomes: seq<ReadOutcome>, i: nat): ReadOutcome
  {
    if i < |outcomes| then outcomes[i] else TransportFault
  }

  /** A freshly constructed device on `port`. */
  function NewDevice(port: string, deviceType: string := DefaultDeviceType): (d: Device)
    ensures d.port == port && d.deviceType == deviceType
    ensures d.health == Init() && d.parsedData == map[]
    ensures Inv(d.health) && IsAvailable(d.health)
  {
    Device(port, deviceType, Init(), map[])
  }

  /** Reading, framing and decoding one command. */
  function Step(c: Command, o: ReadOutcome, deviceType: string, parse: Parser)
    : (r: Result<Snapshot, PollError>)
    ensures o.ErrorResponse? ==> r == Failure(DeviceError)
    ensures o.TransportFault? ==> r == Failure(ReadFailed)
    ensures o.Registers? && BuildFrame(DefaultDeviceId, c.functionCode, c.wordCount, o.words).Failure? ==>
      r == Failure(FrameRejected)
    ensures o.Registers? && BuildFrame(DefaultDeviceId, c.functionCode, c.wordCount, o.words).Success? ==>
      (r.Success? <==>
         parse(BuildFrame(DefaultDeviceId, c.functionCode, c.wordCount, o.words).value, deviceType, c.register).Some?)
    ensures (o.Registers? && BuildFrame(DefaultDeviceId, c.functionCode, c.wordCount, o.words).Success?
             && parse(BuildFrame(DefaultDeviceId, c.functionCode, c.wordCount, o.words).value, deviceType, c.register).None?)
      ==> r == Failure(DecodeFailed)
    ensures r.Failure? && r.error == DecodeFailed ==>
      o.Registers? && BuildFrame(DefaultDeviceId, c.functionCode, c.wordCount, o.words).Success?
    ensures r.Success? ==> o.Registers? && 0 <= 2 * c.wordCount < 0x100
    ensures r.Success? ==>
      BuildFrame(DefaultDeviceId, c.functionCode, c.wordCount, o.words).Success? &&
      parse(BuildFrame(DefaultDeviceId, c.functionCode, c.wordCount, o.words).value, deviceType, c.register)
        == Some(r.value)
  {
    match o
    case ErrorResponse => Failure(DeviceError)
    case TransportFault => Failure(ReadFailed)
    case Registers(words) =>
      match BuildFrame(DefaultDeviceId, c.functionCode, c.wordCount, words)
      case Failure(_) => Failure(FrameRejected)
      case Success(frame) =>
        match parse(frame, deviceType, c.register)
        case None => Failure(DecodeFailed)
        case Some(fields) => Success(fields)
  }

  function StepAt(table: seq<Command>, env: Environment, deviceType: string, i: nat)
    : Result<Snapshot, PollError>
    requires i < |table|
  {
    Step(table[i], OutcomeAt(env.outcomes, i), deviceType, env.parse)
  }

  /** Commands `lo` up to `hi` (exclusive) all read and decode. */
  predicate StepsOk(table: seq<Command>, env: Environment, deviceType: string, lo: nat, hi: nat)
    requires hi <= |table|
  {
    forall j :: lo <= j < hi ==> StepAt(table, env, deviceType, j).Success?
  }

  /** The fields decoded by each command, in table order (empty for a
      command that failed). */
  function Decoded(table: seq<Command>, env: Environment, deviceType: string): (ms: seq<Snapshot>)
    ensures |ms| == |table|
    ensures forall j :: 0 <= j < |table| && StepAt(table, env, deviceType, j).Success? ==>
      ms[j] == StepAt(table, env, deviceType, j).value
  {
    seq(|table|, j requires 0 <= j < |table| =>
      match StepAt(table, env, deviceType, j)
      case Success(fields) => fields
      case Failure(_) => map[])
  }

  /** `dict.update` applied with each map in turn. */
  function Merge(acc: Snapshot, ms: seq<Snapshot>): (r: Snapshot)
    ensures acc.Keys <= r.Keys
    ensures |ms| > 0 ==> forall k :: k in ms[|ms| - 1] ==> k in r && r[k] == ms[|ms| - 1][k]
    decreases |ms|
  {
    if |ms| == 0 then acc
    else
      assert |ms| > 1 ==> ms[1..][|ms[1..]| - 1] == ms[|ms| - 1];
      Merge(acc + ms[0], ms[1..])
  }

  /** A key is in the merge exactly when it is in the start or in some map. */
  lemma {:induction false} MergeKeys(acc: Snapshot, ms: seq<Snapshot>, k: string)
    ensures k in Merge(acc, ms) <==> k in acc || exists i :: 0 <= i < |ms| && k in ms[i]
    decreases |ms|
  {
    if |ms| > 0 {
      MergeKeys(acc + ms[0], ms[1..], k);
      if exists i :: 0 <= i < |ms| && k in ms[i] {
        var i :| 0 <= i < |ms| && k in ms[i];
        if i > 0 { assert k in ms[1..][i - 1]; }
      }
      if exists i :: 0 <= i < |ms[1..]| && k in ms[1..][i] {
        var i :| 0 <= i < |ms[1..]| && k in ms[1..][i];
        assert k in ms[i + 1];
      }
    }
  }

  /** Last write wins: a key takes its value from the last map that has it. */
  lemma {:induction false} MergeLastWriteWins(acc: Snapshot, ms: seq<Snapshot>, k: string, i: nat)
    requires i < |ms| && k in ms[i]
    requires forall j :: i < j < |ms| ==> k !in ms[j]
    ensures k in Merge(acc, ms) && Merge(acc, ms)[k] == ms[i][k]
    decreases |ms|
  {
    if i == 0 {
      MergeKeepsUntouched(acc + ms[0], ms[1..], k);
    } else {
      MergeLastWriteWins(acc + ms[0], ms[1..], k, i - 1);
    }
  }

  /** A key no map mentions keeps its starting value. */
  lemma {:induction false} MergeKeepsUntouched(acc: Snapshot, ms: seq<Snapshot>, k: string)
    requires k in acc
    requires forall j :: 0 <= j < |ms| ==> k !in ms[j]
    ensures k in Merge(acc, ms) && Merge(acc, ms)[k] == acc[k]
    decreases |ms|
  {
    if |ms| > 0 {
      MergeKeepsUntouched(acc + ms[0], ms[1..], k);
    }
  }

  /** The outcome of the command loop from command `i` on, starting from the
      fields `acc` gathered so far, together with the commands it read. The
      loop stops at the first command that fails and reports that command's
      error; only if none fails does it return the merged fields. */
  function RunCommands(table: seq<Command>, env: Environment, deviceType: string, i: nat, acc: Snapshot)
    : (r: (Result<Snapshot, PollError>, seq<Command>))
    requires i <= |table|
    ensures r.0.Success? <==> StepsOk(table, env, deviceType, i, |table|)
    ensures r.0.Success? ==>
      r.1 == table[i..] && r.0.value == Merge(acc, Decoded(table, env, deviceType)[i..])
    ensures r.0.Failure? ==> exists k :: FirstFailure(table, env, deviceType, i, k, r.0.error, r.1)
    decreases |table| - i
  {
    if i == |table| then (Success(acc), [])
    else
      StepsOkUnfold(table, env, deviceType, i);
      match StepAt(table, env, deviceType, i)
      case Failure(e) =>
        assert table[i..i + 1] == [table[i]];
        assert FirstFailure(table, env, deviceType, i, i, e, [table[i]]);
        (Failure(e), [table[i]])
      case Success(fields) =>
        var rest := RunCommands(table, env, deviceType, i + 1, acc + fields);
        SuffixUnfold(table, i);
        if rest.0.Failure? then
          var k :| FirstFailure(table, env, deviceType, i + 1, k, rest.0.error, rest.1);
          FirstFailureExtends(table, env, deviceType, i, k, rest.0.error, rest.1);
          (rest.0, [table[i]] + rest.1)
        else
          MergeUnfold(acc, Decoded(table, env, deviceType), i);
          (rest.0, [table[i]] + rest.1)
  }

  /** Reading from command `i` on, command `k` is the first to fail, with
      `error`, and `log` lists the commands read: `i` up to `k`. */
  predicate FirstFailure(table: seq<Command>, env: Environment, deviceType: string,
                         i: nat, k: nat, error: PollError, log: seq<Command>)
  {
    && i <= k < |table|
    && StepsOk(table, env, deviceType, i, k)
    && StepAt(table, env, deviceType, k) == Failure(error)
    && log == table[i..k + 1]
  }

  lemma FirstFailureExtends(table: seq<Command>, env: Environment, deviceType: string,
                            i: nat, k: nat, error: PollError, log: seq<Command>)
    requires i < |table| && StepAt(table, env, deviceType, i).Success?
    requires FirstFailure(table, env, deviceType, i + 1, k, error, log)
    ensures FirstFailure(table, env, deviceType, i, k, error, [table[i]] + log)
  {
    StepsOkUnfold(table, env, deviceType, i, k);
    SliceUnfold(table, i, k + 1);
  }

  lemma StepsOkUnfold(table: seq<Command>, env: Environment, deviceType: string, i: nat, hi: nat := |table|)
    requires i < hi <= |table|
    ensures StepsOk(table, env, deviceType, i, hi) <==>
      StepAt(table, env, deviceType, i).Success? && StepsOk(table, env, deviceType, i + 1, hi)
  {
  }

  lemma SliceUnfold<T>(s: seq<T>, i: nat, j: nat)
    requires i < j <= |s|
    ensures s[i..j] == [s[i]] + s[i + 1..j]
  {
  }

  lemma SuffixUnfold<T>(s: seq<T>, i: nat)
    requires i < |s|
    ensures s[i..] == [s[i]] + s[i + 1..]
  {
  }

  lemma MergeUnfold(acc: Snapshot, ms: seq<Snapshot>, i: nat)
    requires i < |ms|
    ensures Merge(acc, ms[i..]) == Merge(acc + ms[i], ms[i + 1..])
  {
    assert ms[i..][0] == ms[i] && ms[i..][1..] == ms[i + 1..];
  }

  /** One call of the coordinator's update routine. The parser check and the
      retry throttle come before the guarded block and report nothing; inside
      it, connecting, the table lookup and every read, frame and decode are
      covered by one failure report, and the snapshot is replaced only when
      all of them succeed. */
  function PollCycle(dev: Device, env: Environment): (c: Cycle)
    // identity fields never change
    ensures c.device.port == dev.port && c.device.deviceType == dev.deviceType
    // a missing parser changes nothing at all
    ensures !env.parserAvailable ==>
      c == Cycle(UpdateFailed(ParserMissing), dev, Effects(false, [], []))
    // the guarded block is entered exactly when the parser exists and the throttle agrees
    ensures c.effects.attemptedConnect <==>
      env.parserAvailable && ShouldRetry(dev.health, env.startedAt).proceed
    // a denied retry touches nothing but the throttle's timestamp
    ensures env.parserAvailable && !c.effects.attemptedConnect ==>
      && c.outcome == UpdateFailed(MarkedUnavailable)
      && c.device.parsedData == dev.parsedData
      && c.device.health == ShouldRetry(dev.health, env.startedAt).next
      && c.effects.commandsRead == [] && c.effects.reports == []
    // inside the guarded block exactly one report is made, matching the outcome
    ensures c.effects.attemptedConnect ==> c.effects.reports == [c.outcome.Updated?]
    // success: the whole table was read in order and its merge is published
    ensures c.outcome.Updated? ==>
      && dev.deviceType in Commands
      && env.connects
      && StepsOk(Commands[dev.deviceType], env, dev.deviceType, 0, |Commands[dev.deviceType]|)
      && c.effects.commandsRead == Commands[dev.deviceType]
      && c.outcome.data == Merge(map[], Decoded(Commands[dev.deviceType], env, dev.deviceType))
      && c.device.parsedData == c.outcome.data
      && c.device.health.failureCount == 0 && c.device.health.available
    // and every cycle that connects and reads the whole table cleanly succeeds
    ensures (&& c.effects.attemptedConnect && env.connects && dev.deviceType in Commands
             && StepsOk(Commands[dev.deviceType], env, dev.deviceType, 0, |Commands[dev.deviceType]|))
      ==> c.outcome.Updated?
    // failure: the previous snapshot stays
    ensures c.outcome.UpdateFailed? ==> c.device.parsedData == dev.parsedData
    // a communication failure is counted once
    ensures c.outcome.UpdateFailed? && c.outcome.reason.Communication? ==>
      c.effects.attemptedConnect && c.device.health.failureCount == dev.health.failureCount + 1
    // connecting comes first, then the table lookup, both before any read
    ensures c.effects.attemptedConnect && !env.connects ==>
      c.outcome == UpdateFailed(Communication(ConnectFailed)) && c.effects.commandsRead == []
    ensures c.effects.attemptedConnect && env.connects && dev.deviceType !in Commands ==>
      c.outcome == UpdateFailed(Communication(UnsupportedDeviceType)) && c.effects.commandsRead == []
    // after a connect attempt the health record is exactly the report applied to the throttle's state
    ensures c.effects.attemptedConnect ==>
      c.device.health ==
        UpdateAvailability(ShouldRetry(dev.health, env.startedAt).next, c.outcome.Updated?, env.finishedAt)
    // a failure inside the command loop is the first failing command's error,
    // after reading exactly the commands up to and including it
    ensures (&& c.effects.attemptedConnect && env.connects && dev.deviceType in Commands
             && c.outcome.UpdateFailed?) ==>
      && c.outcome.reason.Communication?
      && exists k :: FirstFailure(Commands[dev.deviceType], env, dev.deviceType, 0, k,
                                  c.outcome.reason.error, c.effects.commandsRead)
    ensures Inv(dev.health) ==> Inv(c.device.health)
  {
    if !env.parserAvailable then
      Cycle(UpdateFailed(ParserMissing), dev, Effects(false, [], []))
    else
      var decision := ShouldRetry(dev.health, env.startedAt);
      var dev1 := dev.(health := decision.next);
      if !decision.proceed then
        Cycle(UpdateFailed(MarkedUnavailable), dev1, Effects(false, [], []))
      else
        var attempt := Attempt(dev1.deviceType, env);
        match attempt.0
        case Success(parsed) =>
          var dev2 := dev1.(health := UpdateAvailability(dev1.health, true, env.finishedAt),
                            parsedData := parsed);
          Cycle(Updated(parsed), dev2, Effects(true, attempt.1, [true]))
        case Failure(e) =>
          var dev2 := dev1.(health := UpdateAvailability(dev1.health, false, env.finishedAt));
          Cycle(UpdateFailed(Communication(e)), dev2, Effects(true, attempt.1, [false]))
  }

  /** The body of the guarded block: connect, look up the table, run it. */
  function Attempt(deviceType: string, env: Environment): (r: (Result<Snapshot, PollError>, seq<Command>))
    ensures !env.connects ==> r == (Failure(ConnectFailed), [])
    ensures env.connects && deviceType !in Commands ==> r == (Failure(UnsupportedDeviceType), [])
    ensures env.connects && deviceType in Commands ==>
      r == RunCommands(Commands[deviceType], env, deviceType, 0, map[])
  {
    if !env.connects then (Failure(ConnectFailed), [])
    else
      match LookupCommands(deviceType)
      case None => (Failure(UnsupportedDeviceType), [])
      case Some(table) => RunCommands(table, env, deviceType, 0, map[])
  }
}
