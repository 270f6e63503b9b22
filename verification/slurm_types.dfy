/** The records, wire messages and symbolic constants that the job-step
    query and its printers work on. C integer widths are kept as newtypes;
    the numeric values of the SLURM_* constants are not known here, so each
    family of constants is a datatype whose constructors are pairwise
    distinct. */
module SlurmTypes {

  newtype u32 = x: int | 0 <= x < 0x1_0000_0000
  newtype i32 = x: int | -0x8000_0000 <= x < 0x8000_0000
  newtype i64 = x: int | -0x8000_0000_0000_0000 <= x < 0x8000_0000_0000_0000

  /** One job step as the controller reports it (job_step_info_t). */
  datatype StepInfo = StepInfo(
    jobId: u32,
    stepId: u32,
    userId: u32,
    startTime: i64,
    partition: string,
    nodes: string)

  /** The payload of a RESPONSE_JOB_STEP_INFO reply
      (job_step_info_response_msg_t): the array `jobSteps` is meant to hold
      at least `jobStepCount` records. */
  datatype StepInfoResponse = StepInfoResponse(
    lastUpdate: i64,
    jobStepCount: i32,
    jobSteps: seq<StepInfo>)

  /** The payload of a REQUEST_JOB_STEP_INFO request
      (job_step_info_request_msg_t). */
  datatype StepInfoRequest = StepInfoRequest(jobId: u32, jobStepId: u32)

  /** The msg_type field of a slurm_msg_t. */
  datatype MsgType =
    | RequestJobStepInfo
    | ResponseJobStepInfo
    | ResponseSlurmRc
    | OtherMsgType(tag: int)

  /** The request message built by the client. */
  datatype Request = Request(msgType: MsgType, data: StepInfoRequest)

  /** A reply envelope as decoded by the transport: its msg_type together
      with the payload that msg_type binds. */
  datatype Reply =
    | RespJobStepInfo(info: StepInfoResponse)
    | RespSlurmRc(returnCode: i32)
    | Other(tag: int)
  {
    function MsgType(): (t: MsgType)
      ensures t == ResponseJobStepInfo <==> RespJobStepInfo?
      ensures t == ResponseSlurmRc <==> RespSlurmRc?
    {
      match this
      case RespJobStepInfo(_) => ResponseJobStepInfo
      case RespSlurmRc(_) => ResponseSlurmRc
      case Other(tag) => OtherMsgType(tag)
    }
  }

  /** The int returned by slurm_get_job_steps: one of the three protocol
      constants, or a nonzero message size handed back verbatim. */
  datatype ReturnCode =
    | SocketError       // SLURM_SOCKET_ERROR
    | ProtocolSuccess   // SLURM_PROTOCOL_SUCCESS
    | ProtocolError     // SLURM_PROTOCOL_ERROR
    | MsgSize(size: i32)

  /** A value stored by slurm_seterrno: one of the communication error
      codes, SLURM_UNEXPECTED_MSG_ERROR, or a code the controller sent. */
  datatype Errno =
    | CommConnectionError   // SLURM_COMMUNICATIONS_CONNECTION_ERROR
    | CommSendError         // SLURM_COMMUNICATIONS_SEND_ERROR
    | CommReceiveError      // SLURM_COMMUNICATIONS_RECEIVE_ERROR
    | CommShutdownError     // SLURM_COMMUNICATIONS_SHUTDOWN_ERROR
    | UnexpectedMsgError    // SLURM_UNEXPECTED_MSG_ERROR
    | ControllerRc(code: i32)
  {
    /** The four codes that report a failed transport call. */
    predicate IsCommunicationError() {
      CommConnectionError? || CommSendError? || CommReceiveError? || CommShutdownError?
    }
  }
}
