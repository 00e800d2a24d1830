/** The records of include/ltf_state.h that a test run fills and the raw log persists. */
module RunState {
  import opened Options
  import opened Keywords

  /** A missing text is a NULL pointer; `level` is the C enum's integer. */
  datatype Output = Output(
    file: Option<string>, line: int, dateTime: Option<string>, level: int, msg: Option<string>)

  datatype Status = RUNNING | TEARDOWN_AFTER_FAILED | TEARDOWN_AFTER_PASSED | FAILED | PASSED

  datatype TestRecord = TestRecord(
    name: Option<string>,
    description: Option<string>,
    started: Option<string>,
    finished: Option<string>,
    teardownStart: Option<string>,
    teardownEnd: Option<string>,
    status: Status,
    statusStr: Option<string>,
    tags: seq<string>,
    failureReasons: seq<Output>,
    outputs: seq<Output>,
    teardownOutputs: seq<Output>,
    teardownErrors: seq<Output>,
    keywords: seq<Keyword>)
}
