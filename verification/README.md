# SLURM job-step query client, modelled in Dafny

This project models the client side of SLURM's job-step query,
`trunk/src/api/job_step_info.c`:

- `slurm_get_job_steps` opens a connection to the controller. It sends a
  `REQUEST_JOB_STEP_INFO` message carrying the job id and step id, receives
  one reply and shuts the connection down. It then dispatches on the
  reply's `msg_type`.
- `slurm_print_job_step_info_msg` and `slurm_print_job_step_info` print a
  `RESPONSE_JOB_STEP_INFO` payload as a header line followed by one block
  per job step.

The exchange is the pure function `JobStepInfo.GetJobSteps`. The four
transport calls are inputs: a `Script` says whether the open, the send and
the shutdown succeed. It also says whether the receive returns
`SLURM_SOCKET_ERROR` or a size together with the decoded reply. The
function returns an `Outcome` with four fields:

- the return code;
- the value given to `slurm_seterrno`, or `None` when errno is left alone;
- the value stored through `step_response_pptr`, or `None` when the pointer
  is left alone;
- the transport calls made, in order.

The numeric values of the `SLURM_*` constants live in headers that are not
part of this model. Each family of constants is therefore a datatype whose
constructors are pairwise distinct: `ReturnCode`, `Errno` and `MsgType`.

The printers are functions that return the text they would write
(`JobStepPrint.FormatStepInfoMsg`). A method, `JobStepPrint.PrintStepInfoMsg`,
follows the source's loop. The `%u`, `%d` and `%ld` conversions are written
out in module `Decimal`. A parser reads them back. Round-trip lemmas show
two things: the header's two numbers can be recovered from the report, and
a record's numeric fields can be recovered from that record's own block.

Modules: `Wrappers` (Option), `SlurmTypes` (records, messages, constants),
`Decimal`, `JobStepPrint` and `JobStepInfo`.

### Paths worth noting

- When the send or the receive fails, the code returns at lines 90-99
  without calling `slurm_shutdown_msg_conn`, so the connection opened at
  line 80 stays open. `GetJobSteps` models this path as written.
  `GetJobStepsClosing` is the corrected exchange (see Findings).
- Two paths return with no collection and no errno: a nonzero `msg_size`
  (lines 106-107), and a `RESPONSE_SLURM_RC` reply carrying 0 (lines
  115-130). The second returns `SLURM_PROTOCOL_SUCCESS` without assigning
  the output pointer. `SuccessWithoutData` characterises it exactly.

## Model

| member | source | states |
|---|---|---|
| JobStepInfo.GetJobSteps | trunk/src/api/job_step_info.c:67-131 | Calls are made in protocol order, each at most once. A failed open makes no other call and gives SLURM_SOCKET_ERROR with SLURM_COMMUNICATIONS_CONNECTION_ERROR. The request carries the caller's job and step ids. A failed send or receive gives SLURM_SOCKET_ERROR with the send or receive errno, with no later call and the output untouched. Shutdown is attempted exactly when open, send and receive succeed, and a failed shutdown gives the shutdown errno whatever the reply. A nonzero size is returned verbatim. Otherwise the reply decides. The output pointer is assigned only from a RESPONSE_JOB_STEP_INFO reply, with its payload. |
| JobStepInfo.StepRequest | trunk/src/api/job_step_info.c:86-89 | The request is typed REQUEST_JOB_STEP_INFO and carries the job id and step id unchanged. |
| JobStepInfo.Dispatch | trunk/src/api/job_step_info.c:109-130 | RESPONSE_JOB_STEP_INFO returns success and hands over the payload. This is the only case that assigns the output. RESPONSE_SLURM_RC with a nonzero code sets errno to that code and returns SLURM_PROTOCOL_ERROR. With code 0 it returns success and assigns nothing. Any other type sets SLURM_UNEXPECTED_MSG_ERROR and returns SLURM_PROTOCOL_ERROR. |
| JobStepInfo.TransportErrno | trunk/src/api/job_step_info.c:80-105 | Each failed stage has its own communication errno code: open gives SLURM_COMMUNICATIONS_CONNECTION_ERROR (line 81), send gives SLURM_COMMUNICATIONS_SEND_ERROR (line 91), receive gives SLURM_COMMUNICATIONS_RECEIVE_ERROR (line 97), and shutdown gives SLURM_COMMUNICATIONS_SHUTDOWN_ERROR (line 103). |
| JobStepInfo.TransportFailureClassified | trunk/src/api/job_step_info.c:79-105 | When a transport call fails, the result is SLURM_SOCKET_ERROR with that stage's errno, the output is untouched, and exactly the calls up to and including the failed one were made. When no call fails, all four calls are made and SLURM_SOCKET_ERROR is not returned. |
| JobStepInfo.ResultConsistent | trunk/src/api/job_step_info.c:80-130 | SLURM_SOCKET_ERROR is returned exactly when a communication errno is set. SLURM_PROTOCOL_ERROR is returned exactly when a controller code or SLURM_UNEXPECTED_MSG_ERROR is set. errno is untouched exactly for success or a returned size. An assigned output implies success. |
| JobStepInfo.SuccessWithoutData | trunk/src/api/job_step_info.c:115-130 | Success without an assigned output happens exactly for a clean exchange whose reply is RESPONSE_SLURM_RC with code 0. |
| JobStepInfo.ReplyIgnoredUnlessClean | trunk/src/api/job_step_info.c:101-109 | After a failed shutdown or with a nonzero size, replacing the reply changes nothing the caller sees. |
| JobStepInfo.SendFailureLeaksConnection | trunk/src/api/job_step_info.c:90-93 | A concrete script where the open succeeds, the send fails and shutdown is never called. |
| JobStepInfo.ReceiveFailureLeaksConnection | trunk/src/api/job_step_info.c:96-99 | A concrete script where the open succeeds, the receive fails and shutdown is never called. |
| JobStepInfo.GetJobStepsClosing | trunk/src/api/job_step_info.c:79-131 | Corrected exchange: whenever the open succeeds, the last call made is the shutdown. When the open fails, no other call is made. |
| JobStepInfo.ClosingKeepsResult | trunk/src/api/job_step_info.c:79-131 | The corrected exchange returns the same code, errno and output as the original. Its calls differ only by a shutdown appended after a failed send or receive. |
| JobStepPrint.Header | trunk/src/api/job_step_info.c:45-46 | The header is a single line: it starts with "Job steps updated at ", ends with its only newline, and HeaderRoundTrip reads its two numbers back. |
| JobStepPrint.FormatStep | trunk/src/api/job_step_info.c:55-64 | A record block starts with "JobId=" and ends with a blank line ("\n\n"). StepRoundTrip reads its four numeric fields back. |
| JobStepPrint.FormatStepInfoMsg | trunk/src/api/job_step_info.c:39-52 | The report starts with the header line, and parsing the report's header gives back last_update and job_step_count, with the record text as the remainder. ReportRoundTrip relates the count to the blocks. |
| JobStepPrint.Blocks | trunk/src/api/job_step_info.c:48-51 | The reference list of record blocks: max(count, 0) entries, entry i the rendering of record i, in array order. PrintRecords proves that the source loop produces exactly their concatenation. |
| JobStepPrint.PrintRecords | trunk/src/api/job_step_info.c:48-51 | The index loop from 0 while below the count, formatting record i at each step, produces exactly the concatenation of the record blocks, in order. |
| JobStepPrint.PrintStepInfoMsg | trunk/src/api/job_step_info.c:39-52 | The printer writes the header line and then the record blocks, equal to the functional report. |
| JobStepPrint.HeaderRoundTrip | trunk/src/api/job_step_info.c:45-46 | Reading back the header line recovers last_update and job_step_count exactly, and leaves the text after it. |
| JobStepPrint.ReportRoundTrip | trunk/src/api/job_step_info.c:45-51 | The count read back from the report header matches the text after it. That text is the concatenation of the record blocks. A non-negative count equals the number of blocks, and a negative count is followed by no text. |
| JobStepPrint.StepRoundTrip | trunk/src/api/job_step_info.c:60-63 | Reading back a record block recovers job id, step id, user id and start time exactly, and leaves the partition and node text. |
| Decimal.NatToDecimal | trunk/src/api/job_step_info.c:60-61 | The %u rendering is non-empty, all digits, and has no leading zero. |
| Decimal.IntToDecimal | trunk/src/api/job_step_info.c:62-63 | The %ld rendering starts with '-' exactly for negative values and is otherwise all digits. |
| Decimal.NatRoundTrip | trunk/src/api/job_step_info.c:60-61 | Parsing the %u rendering gives back the value and the text that follows, when that text does not start with a digit. |
| Decimal.IntRoundTrip | trunk/src/api/job_step_info.c:45-46 | Parsing the %ld / %d rendering gives back the value, including its sign, and the text that follows, when that text does not start with a digit. |

## Left out

- The transport calls `slurm_open_controller_conn`, `slurm_send_controller_msg`, `slurm_receive_msg` and `slurm_shutdown_msg_conn` are socket I/O whose definitions are not part of this model. Their results are the `Script` input.
- The numeric values of the `SLURM_*` constants are not part of this model. A nonzero `msg_size` that happens to equal one of them numerically is not distinguished from it. A received size is never read as `SLURM_SOCKET_ERROR`, which has its own `RecvSocketError` outcome.
- `slurm_free_return_code_msg` and memory ownership are left out. They only free memory; the model keeps just the extracted return code.
- errno is process-global state in the source. Here it is the `errno` field of the result, and `None` means the previous value is left in place.
- `FILE*` output is left out. The printers return the text that `fprintf` would write.
- A `NULL` partition or node string, which glibc prints as `(null)`, is not modelled; strings are always present.
- The width of `return_code` in `return_code_msg_t` is set in a header that is not part of this model. It is taken as a C `int` (`i32`), the type of `rc` at line 71.
- JobStepInfo.ResultConsistent: its "exactly when" clauses describe which `slurm_seterrno` call fired. A controller code is kept apart from the named constants by the `ControllerRc` constructor. In C, errno is a single int, so a `RESPONSE_SLURM_RC` reply whose code equals, say, `SLURM_COMMUNICATIONS_SEND_ERROR` leaves that number in errno while `SLURM_PROTOCOL_ERROR` is returned. The lemma does not describe the int a caller reads.
- `last_update` and `start_time` are `time_t`, set in a header that is not part of this model. They are taken as `i64`, and the `(long)` casts at lines 46 and 63 are taken as doing nothing. This holds where `long` can hold every `time_t`. The record's `job_id`, `step_id` and `user_id`, printed with `%u` at line 60, are taken as `u32`.
- The type of `job_step_count` is set in a header that is not part of this model. It is taken as a signed C `int` (`i32`), the type `%d` at line 45 prints. `PrintedCount`, and the "a negative count prints no block" clause of `JobStepPrint.ReportRoundTrip`, follow from that choice.
- JobStepPrint.FormatStep: writes every character of `partition` and `nodes`. C's `%s` (line 62) stops at the first NUL, so a string holding `'\0'` prints truncated in the source. NUL characters inside these strings are not modelled.
- JobStepPrint.StepRoundTrip: it reads one block on its own. The report as a whole cannot be split back into its records, because `partition` and `nodes` are free text. A node list containing `"\n\n"` followed by the text of another block prints the same report as a different record sequence. Only the header fields are recovered from the whole report.
- `slurm_print_job_step_info_msg` reads `job_steps[i]` for every `i` below `job_step_count`. The model requires the array to hold that many records (`HasPrintedRecords`). Reading past the array is undefined in C.

## Findings

| source | as written | input that shows it | evidently intended | confidence | as-written member | corrected member |
|---|---|---|---|---|---|---|
| trunk/src/api/job_step_info.c:90-99 | A failed send or receive returns `SLURM_SOCKET_ERROR` without calling `slurm_shutdown_msg_conn`, so the opened connection is never closed | open succeeds, then send fails (or send succeeds and receive returns `SLURM_SOCKET_ERROR`) | shut the connection down on every path that opened it, keeping the send or receive error as the reported one | medium, not executed | JobStepInfo.SendFailureLeaksConnection | JobStepInfo.GetJobStepsClosing |
