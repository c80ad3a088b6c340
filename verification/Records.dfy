/** The values that travel through the logger. */
module Records {

  datatype Option<+T> = None | Some(value: T)

  datatype Level = Trace | Debug | Info | Warn | Error | Fatal | Off

  datatype OverflowPolicy = Block | DropNewest | DropOldest | Discard

  /** One log event. `timestamp` counts clock ticks; `threadId` stands for the
      opaque thread identity. */
  datatype LogRecord = LogRecord(
    timestamp: int,
    level: Level,
    threadId: int,
    processId: nat,
    file: string,
    func: string,
    line: nat,
    message: string,
    loggerName: string)
}
