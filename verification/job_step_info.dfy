/** slurm_get_job_steps: one request/reply exchange with the controller.
    The four transport calls are not modelled; their results are supplied
    as a script, and the function reports the return code, the errno value
    it set (if any), the value it stored through step_response_pptr (if
    any) and the transport calls it made, in order. */
module JobStepInfo {
  import opened Wrappers
  import opened SlurmTypes

  /** What slurm_receive_msg returned: SLURM_SOCKET_ERROR, or a size
      together with the reply it decoded (the reply is read only when the
      size is 0). */
  datatype RecvOutcome =
    | RecvSocketError
    | Received(msgSize: i32, reply: Reply)

  /** The results the transport gives to the four calls, in call order:
      slurm_open_controller_conn, slurm_send_controller_msg,
      slurm_receive_msg, slurm_shutdown_msg_conn. */
  datatype Script = Script(openOk: bool, sendOk: bool, recv: RecvOutcome, shutdownOk: bool)

  /** One transport call made by the exchange. */
  datatype Op = OpOpen | OpSend(request: Request) | OpReceive | OpShutdown

  /** Everything the caller can observe after the call; `stepResponse` is what was
      stored through step_response_pptr. */
  datatype Outcome = Outcome(
    rc: ReturnCode,
    errno: Option<Errno>,
    stepResponse: Option<StepInfoResponse>,
    trace: seq<Op>)

  /** The effect of the final switch on the reply's msg_type. */
  datatype Disposition = Disposition(
    rc: ReturnCode,
    errno: Option<Errno>,
    stepResponse: Option<StepInfoResponse>)

  /** The request the client sends for (jobId, stepId). */
  function StepRequest(jobId: u32, stepId: u32): (req: Request)
    ensures req.msgType == RequestJobStepInfo
    ensures req.data.jobId == jobId && req.data.jobStepId == stepId
  {
    Request(RequestJobStepInfo, StepInfoRequest(jobId, stepId))
  }

  /** The longest sequence of calls the exchange can make. */
  function Protocol(jobId: u32, stepId: u32): seq<Op> {
    [OpOpen, OpSend(StepRequest(jobId, stepId)), OpReceive, OpShutdown]
  }

  /** The switch on the reply's msg_type, reached only after a clean
      shutdown and a zero size. */
  function Dispatch(reply: Reply): (d: Disposition)
    ensures d.stepResponse.Some? <==> reply.MsgType() == ResponseJobStepInfo
    ensures reply.MsgType() == ResponseJobStepInfo ==>
      d == Disposition(ProtocolSuccess, None, Some(reply.info))
    ensures reply.MsgType() == ResponseSlurmRc && reply.returnCode != 0 ==>
      d == Disposition(ProtocolError, Some(ControllerRc(reply.returnCode)), None)
    ensures reply.MsgType() == ResponseSlurmRc && reply.returnCode == 0 ==>
      d == Disposition(ProtocolSuccess, None, None)
    ensures reply.MsgType() !in {ResponseJobStepInfo, ResponseSlurmRc} ==>
      d == Disposition(ProtocolError, Some(UnexpectedMsgError), None)
  {
    match reply
    case RespJobStepInfo(info) => Disposition(ProtocolSuccess, None, Some(info))
    case RespSlurmRc(code) =>
      if code != 0 then Disposition(ProtocolError, Some(ControllerRc(code)), None)
      else Disposition(ProtocolSuccess, None, None)
    case Other(_) => Disposition(ProtocolError, Some(UnexpectedMsgError), None)
  }

  /** slurm_get_job_steps as written: each failed transport call returns
      at once, so a failed send or receive leaves the connection open. */
  function GetJobSteps(jobId: u32, stepId: u32, script: Script): (r: Outcome)
    // the calls made always follow the protocol order, each at most once
    ensures 1 <= |r.trace| <= 4 && r.trace == Protocol(jobId, stepId)[..|r.trace|]
    // a failed open: nothing else is attempted
    ensures !script.openOk ==>
      r == Outcome(SocketError, Some(CommConnectionError), None, [OpOpen])
    // the request carries the caller's job and step ids unchanged
    ensures script.openOk ==>
      2 <= |r.trace| &&
      r.trace[1] == OpSend(Request(RequestJobStepInfo, StepInfoRequest(jobId, stepId)))
    // a failed send: no receive, no shutdown, output untouched
    ensures script.openOk && !script.sendOk ==>
      r == Outcome(SocketError, Some(CommSendError), None, Protocol(jobId, stepId)[..2])
    // a failed receive: no shutdown, output untouched
    ensures script.openOk && script.sendOk && script.recv.RecvSocketError? ==>
      r == Outcome(SocketError, Some(CommReceiveError), None, Protocol(jobId, stepId)[..3])
    // shutdown is attempted exactly when open, send and receive succeed
    ensures OpShutdown in r.trace <==> script.openOk && script.sendOk && script.recv.Received?
    // a failed shutdown hides whatever was received
    ensures OpShutdown in r.trace && !script.shutdownOk ==>
      r.rc == SocketError && r.errno == Some(CommShutdownError) && r.stepResponse.None?
    // a nonzero size is returned as it is, without looking at the reply
    ensures OpShutdown in r.trace && script.shutdownOk && script.recv.msgSize != 0 ==>
      r.rc == MsgSize(script.recv.msgSize) && r.errno.None? && r.stepResponse.None?
    // after a clean exchange with size 0 the reply decides the result
    ensures OpShutdown in r.trace && script.shutdownOk && script.recv.msgSize == 0 ==>
      var d := Dispatch(script.recv.reply);
      r.rc == d.rc && r.errno == d.errno && r.stepResponse == d.stepResponse
    // the output pointer is assigned only from a RESPONSE_JOB_STEP_INFO reply
    ensures r.stepResponse.Some? ==>
      r.rc == ProtocolSuccess && r.errno.None? &&
      script.recv.Received? && script.recv.reply.RespJobStepInfo? &&
      r.stepResponse == Some(script.recv.reply.info)
  {
    if !script.openOk then
      Outcome(SocketError, Some(CommConnectionError), None, [OpOpen])
    else
      var sent := [OpOpen, OpSend(StepRequest(jobId, stepId))];
      if !script.sendOk then
        Outcome(SocketError, Some(CommSendError), None, sent)
      else
        match script.recv
        case RecvSocketError =>
          Outcome(SocketError, Some(CommReceiveError), None, sent + [OpReceive])
        case Received(msgSize, reply) =>
          var closed := sent + [OpReceive, OpShutdown];
          if !script.shutdownOk then
            Outcome(SocketError, Some(CommShutdownError), None, closed)
          else if msgSize != 0 then
            Outcome(MsgSize(msgSize), None, None, closed)
          else
            var d := Dispatch(reply);
            Outcome(d.rc, d.errno, d.stepResponse, closed)
  }

  /** The four transport calls, as stages of the exchange. */
  datatype Stage = OpenStage | SendStage | ReceiveStage | ShutdownStage

  /** The first transport call the script makes fail, if any. */
  function FirstFailure(script: Script): Option<Stage> {
    if !script.openOk then Some(OpenStage)
    else if !script.sendOk then Some(SendStage)
    else if script.recv.RecvSocketError? then Some(ReceiveStage)
    else if !script.shutdownOk then Some(ShutdownStage)
    else None
  }

  /** The errno code each failed stage reports. */
  function TransportErrno(stage: Stage): (e: Errno)
    ensures e.IsCommunicationError()
    ensures e == CommConnectionError <==> stage == OpenStage
    ensures e == CommSendError <==> stage == SendStage
    ensures e == CommReceiveError <==> stage == ReceiveStage
    ensures e == CommShutdownError <==> stage == ShutdownStage
  {
    match stage
    case OpenStage => CommConnectionError
    case SendStage => CommSendError
    case ReceiveStage => CommReceiveError
    case ShutdownStage => CommShutdownError
  }

  /** How many calls have been made once a stage has run. */
  function CallsThrough(stage: Stage): (n: nat)
    ensures 1 <= n <= 4
  {
    match stage
    case OpenStage => 1
    case SendStage => 2
    case ReceiveStage => 3
    case ShutdownStage => 4
  }

  /** A failed transport call ends the exchange with SLURM_SOCKET_ERROR
      and that stage's errno code, after exactly the calls up to it; and
      SLURM_SOCKET_ERROR is returned only in that case. */
  lemma TransportFailureClassified(jobId: u32, stepId: u32, script: Script)
    ensures var r := GetJobSteps(jobId, stepId, script);
      FirstFailure(script).Some? ==>
        var stage := FirstFailure(script).value;
        r.rc == SocketError && r.errno == Some(TransportErrno(stage)) && r.stepResponse.None? &&
        r.trace == Protocol(jobId, stepId)[..CallsThrough(stage)]
    ensures var r := GetJobSteps(jobId, stepId, script);
      FirstFailure(script).None? ==>
        r.rc != SocketError && r.trace == Protocol(jobId, stepId)
  {
  }

  /** The three things a caller can see agree: SLURM_SOCKET_ERROR comes
      with a communication errno, SLURM_PROTOCOL_ERROR with a controller or
      unexpected-message errno, and success or a message size with errno
      untouched; the output pointer is assigned only on success. */
  lemma ResultConsistent(jobId: u32, stepId: u32, script: Script)
    ensures var r := GetJobSteps(jobId, stepId, script);
      (r.rc == SocketError <==> r.errno.Some? && r.errno.value.IsCommunicationError()) &&
      (r.rc == ProtocolError <==> r.errno.Some? && !r.errno.value.IsCommunicationError()) &&
      (r.errno.None? <==> r.rc == ProtocolSuccess || r.rc.MsgSize?) &&
      (r.stepResponse.Some? ==> r.rc == ProtocolSuccess)
  {
  }

  /** SLURM_PROTOCOL_SUCCESS without an assigned output pointer happens
      exactly for a RESPONSE_SLURM_RC reply carrying 0. */
  lemma SuccessWithoutData(jobId: u32, stepId: u32, script: Script)
    ensures var r := GetJobSteps(jobId, stepId, script);
      (r.rc == ProtocolSuccess && r.stepResponse.None?) <==>
        (FirstFailure(script).None? && script.recv.msgSize == 0 &&
         script.recv.reply == RespSlurmRc(0))
  {
  }

  /** The reply is read only after a clean shutdown and a zero size:
      otherwise replacing it changes nothing the caller can see. */
  lemma ReplyIgnoredUnlessClean(jobId: u32, stepId: u32, script: Script, other: Reply)
    requires script.recv.Received?
    requires !script.shutdownOk || script.recv.msgSize != 0
    ensures var changed := script.(recv := Received(script.recv.msgSize, other));
      GetJobSteps(jobId, stepId, changed) == GetJobSteps(jobId, stepId, script)
  {
  }

  /** The connection stays open after a failed send: opening succeeds, yet
      slurm_shutdown_msg_conn is never called. */
  lemma SendFailureLeaksConnection()
    ensures var r := GetJobSteps(7, 0, Script(true, false, RecvSocketError, true));
      OpOpen in r.trace && OpShutdown !in r.trace
  {
  }

  /** The same for a failed receive. */
  lemma ReceiveFailureLeaksConnection()
    ensures var r := GetJobSteps(7, 0, Script(true, true, RecvSocketError, true));
      OpOpen in r.trace && OpShutdown !in r.trace
  {
  }

  /** slurm_get_job_steps with the connection shut down on every path that
      opened it: a failed send or receive still calls
      slurm_shutdown_msg_conn, and the earlier failure keeps priority over
      a failed shutdown. */
  function GetJobStepsClosing(jobId: u32, stepId: u32, script: Script): (r: Outcome)
    ensures script.openOk ==> 2 <= |r.trace| && r.trace[|r.trace| - 1] == OpShutdown
    ensures !script.openOk ==> r.trace == [OpOpen]
  {
    if !script.openOk then
      Outcome(SocketError, Some(CommConnectionError), None, [OpOpen])
    else
      var sent := [OpOpen, OpSend(StepRequest(jobId, stepId))];
      if !script.sendOk then
        Outcome(SocketError, Some(CommSendError), None, sent + [OpShutdown])
      else
        match script.recv
        case RecvSocketError =>
          Outcome(SocketError, Some(CommReceiveError), None, sent + [OpReceive, OpShutdown])
        case Received(msgSize, reply) =>
          var closed := sent + [OpReceive, OpShutdown];
          if !script.shutdownOk then
            Outcome(SocketError, Some(CommShutdownError), None, closed)
          else if msgSize != 0 then
            Outcome(MsgSize(msgSize), None, None, closed)
          else
            var d := Dispatch(reply);
            Outcome(d.rc, d.errno, d.stepResponse, closed)
  }

  /** The corrected exchange reports exactly what the original reports and
      differs only by the shutdown call appended after a failed send or
      receive. */
  lemma ClosingKeepsResult(jobId: u32, stepId: u32, script: Script)
    ensures var fixed := GetJobStepsClosing(jobId, stepId, script);
      var orig := GetJobSteps(jobId, stepId, script);
      fixed.rc == orig.rc && fixed.errno == orig.errno &&
      fixed.stepResponse == orig.stepResponse &&
      fixed.trace == (if FirstFailure(script) in {Some(SendStage), Some(ReceiveStage)}
                      then orig.trace + [OpShutdown] else orig.trace)
  {
  }
}
