/** The report printers slurm_print_job_step_info_msg and
    slurm_print_job_step_info, as functions that return the text they would
    write to the FILE*, together with a reader for the numeric fields of
    that text. */
module JobStepPrint {
  import opened Wrappers
  import opened SlurmTypes
  import opened Decimal

  /** How many records the printing loop visits: it runs while i < count,
      so a negative count prints none. */
  function PrintedCount(m: StepInfoResponse): nat {
    if m.jobStepCount < 0 then 0 else m.jobStepCount as nat
  }

  /** The array holds every record the loop reads. */
  predicate HasPrintedRecords(m: StepInfoResponse) {
    PrintedCount(m) <= |m.jobSteps|
  }

  /** No character of `s` ends a line. */
  predicate NoNewline(s: string) {
    forall i :: 0 <= i < |s| ==> s[i] != '\n'
  }

  lemma NoNewlineConcat(a: string, b: string)
    requires NoNewline(a) && NoNewline(b)
    ensures NoNewline(a + b)
  {
  }

  lemma DecimalNoNewline(i: int)
    ensures NoNewline(IntToDecimal(i))
  {
    var d := IntToDecimal(i);
    forall k | 0 <= k < |d|
      ensures d[k] != '\n'
    {
      if k == 0 && i < 0 {
        assert d[k] == '-';
      } else if i < 0 {
        assert d[k] == d[1..][k - 1];
      } else {
        assert IsDigit(d[k]);
      }
    }
  }

  /** The header line: "Job steps updated at %ld, record count %d\n". */
  function Header(m: StepInfoResponse): (r: string)
    ensures "Job steps updated at " <= r
    ensures 0 < |r| && r[|r| - 1] == '\n'
    ensures NoNewline(r[..|r| - 1])
  {
    var d1 := IntToDecimal(m.lastUpdate as int);
    var d2 := IntToDecimal(m.jobStepCount as int);
    DecimalNoNewline(m.lastUpdate as int);
    DecimalNoNewline(m.jobStepCount as int);
    assert NoNewline("Job steps updated at ") && NoNewline(", record count ");
    NoNewlineConcat(", record count ", d2);
    NoNewlineConcat(d1, ", record count " + d2);
    NoNewlineConcat("Job steps updated at ", d1 + (", record count " + d2));
    var r := "Job steps updated at " + (d1 + (", record count " + (d2 + "\n")));
    assert r[..|r| - 1] == "Job steps updated at " + (d1 + (", record count " + d2));
    r
  }

  /** The block for one record: "JobId=%u StepId=%u UserId=%u " then
      "StartTime=%ld Partition=%s Nodes=%s\n\n". */
  function FormatStep(s: StepInfo): (r: string)
    ensures "JobId=" <= r
    ensures 2 <= |r| && r[|r| - 2..] == "\n\n"
  {
    "JobId=" + (NatToDecimal(s.jobId as nat) + (" StepId=" + (NatToDecimal(s.stepId as nat)
      + (" UserId=" + (NatToDecimal(s.userId as nat) + (" " + ("StartTime="
      + (IntToDecimal(s.startTime as int) + (" Partition=" + (s.partition
      + (" Nodes=" + (s.nodes + "\n\n"))))))))))))
  }

  /** The strings of `ss`, joined in order. */
  function Concat(ss: seq<string>): string {
    if |ss| == 0 then "" else Concat(ss[..|ss| - 1]) + ss[|ss| - 1]
  }

  /** One block per printed record, in array order. */
  function Blocks(m: StepInfoResponse): (bs: seq<string>)
    requires HasPrintedRecords(m)
    ensures |bs| == PrintedCount(m)
    ensures forall i :: 0 <= i < |bs| ==> bs[i] == FormatStep(m.jobSteps[i])
  {
    seq(PrintedCount(m), i requires 0 <= i < PrintedCount(m) => FormatStep(m.jobSteps[i]))
  }

  /** The whole report: the header line, then the record blocks. */
  function FormatStepInfoMsg(m: StepInfoResponse): (r: string)
    requires HasPrintedRecords(m)
    ensures Header(m) <= r
    ensures ParseHeader(r)
         == Some((HeaderFields(m.lastUpdate as int, m.jobStepCount as int), r[|Header(m)|..]))
  {
    HeaderRoundTrip(m, Concat(Blocks(m)));
    assert (Header(m) + Concat(Blocks(m)))[|Header(m)|..] == Concat(Blocks(m));
    Header(m) + Concat(Blocks(m))
  }

  /** The printer as the source writes it: the header, then the records. */
  method PrintStepInfoMsg(m: StepInfoResponse) returns (out: string)
    requires HasPrintedRecords(m)
    ensures out == FormatStepInfoMsg(m)
  {
    var records := PrintRecords(m);
    out := Header(m) + records;
  }

  /** The source's printing loop: one record write per index from 0 while
      the index is below the count. */
  method PrintRecords(m: StepInfoResponse) returns (out: string)
    requires HasPrintedRecords(m)
    ensures out == Concat(Blocks(m))
  {
    ghost var blocks := Blocks(m);
    out := "";
    var i: int := 0;
    while i < m.jobStepCount as int
      invariant 0 <= i <= |blocks|
      invariant out == Concat(blocks[..i])
    {
      ConcatExtend(blocks, i);
      out := out + FormatStep(m.jobSteps[i]);
      i := i + 1;
    }
    assert blocks[..i] == blocks;
  }

  lemma ConcatExtend(ss: seq<string>, i: nat)
    requires i < |ss|
    ensures Concat(ss[..i + 1]) == Concat(ss[..i]) + ss[i]
  {
    assert ss[..i + 1][..i] == ss[..i];
  }

  /** Strips the literal `lit` from the front of `s`. */
  function ExpectLit(lit: string, s: string): (r: Option<string>)
    ensures r.Some? ==> s == lit + r.value
  {
    if lit <= s then Some(s[|lit|..]) else None
  }

  lemma ExpectLitPrefix(lit: string, rest: string)
    ensures ExpectLit(lit, lit + rest) == Some(rest)
  {
    assert lit <= lit + rest;
    assert (lit + rest)[|lit|..] == rest;
  }

  /** The two numbers a header line carries. */
  datatype HeaderFields = HeaderFields(lastUpdate: int, recordCount: int)

  /** Reads a header line; yields its fields and the text after it. */
  function ParseHeader(s: string): Option<(HeaderFields, string)> {
    match ExpectLit("Job steps updated at ", s)
    case None => None
    case Some(s1) =>
      match ParseInt(s1)
      case None => None
      case Some((lastUpdate, s2)) =>
        match ExpectLit(", record count ", s2)
        case None => None
        case Some(s3) =>
          match ParseInt(s3)
          case None => None
          case Some((count, s4)) =>
            match ExpectLit("\n", s4)
            case None => None
            case Some(s5) => Some((HeaderFields(lastUpdate, count), s5))
  }

  /** The four numbers at the front of a record block. */
  datatype StepFields = StepFields(jobId: int, stepId: int, userId: int, startTime: int)

  /** Reads the numeric fields of a record block; yields them and the text
      from the partition name on. */
  function ParseStepFields(s: string): Option<(StepFields, string)> {
    match ExpectLit("JobId=", s)
    case None => None
    case Some(s1) =>
      match ParseNat(s1)
      case None => None
      case Some((jobId, s2)) =>
        match ExpectLit(" StepId=", s2)
        case None => None
        case Some(s3) =>
          match ParseNat(s3)
          case None => None
          case Some((stepId, s4)) =>
            match ExpectLit(" UserId=", s4)
            case None => None
            case Some(s5) =>
              match ParseNat(s5)
              case None => None
              case Some((userId, s6)) =>
                match ExpectLit(" StartTime=", s6)
                case None => None
                case Some(s7) =>
                  match ParseInt(s7)
                  case None => None
                  case Some((startTime, s8)) =>
                    match ExpectLit(" Partition=", s8)
                    case None => None
                    case Some(s9) => Some((StepFields(jobId, stepId, userId, startTime), s9))
  }

  /** Reading back a header line recovers the last-update time and the
      record count exactly as printed, and leaves the text after it. */
  lemma HeaderRoundTrip(m: StepInfoResponse, rest: string)
    ensures ParseHeader(Header(m) + rest)
         == Some((HeaderFields(m.lastUpdate as int, m.jobStepCount as int), rest))
  {
    var d1 := IntToDecimal(m.lastUpdate as int);
    var d2 := IntToDecimal(m.jobStepCount as int);
    var s4 := "\n" + rest;
    var s3 := d2 + s4;
    var s2 := ", record count " + s3;
    var s1 := d1 + s2;
    assert (d2 + "\n") + rest == s3;
    assert (", record count " + (d2 + "\n")) + rest == s2;
    assert (d1 + (", record count " + (d2 + "\n"))) + rest == s1;
    assert Header(m) + rest == "Job steps updated at " + s1;
    ExpectLitPrefix("Job steps updated at ", s1);
    IntRoundTrip(m.lastUpdate as int, s2);
    ExpectLitPrefix(", record count ", s3);
    IntRoundTrip(m.jobStepCount as int, s4);
    ExpectLitPrefix("\n", rest);
  }

  /** The count read back from the report's header matches the record
      text after it: a non-negative count is the number of blocks that
      follow, and a negative count is followed by no text at all. */
  lemma ReportRoundTrip(m: StepInfoResponse)
    requires HasPrintedRecords(m)
    ensures var parsed := ParseHeader(FormatStepInfoMsg(m));
      parsed.Some? && parsed.value.1 == Concat(Blocks(m)) &&
      (0 <= parsed.value.0.recordCount ==> parsed.value.0.recordCount == |Blocks(m)|) &&
      (parsed.value.0.recordCount < 0 ==> parsed.value.1 == "")
  {
    HeaderRoundTrip(m, Concat(Blocks(m)));
  }

  /** Reading back a record block recovers its job id, step id, user id
      and start time exactly, and leaves the partition and node text. */
  lemma StepRoundTrip(st: StepInfo)
    ensures ParseStepFields(FormatStep(st))
         == Some((StepFields(st.jobId as int, st.stepId as int, st.userId as int, st.startTime as int),
                  st.partition + (" Nodes=" + (st.nodes + "\n\n"))))
  {
    var tail := st.partition + (" Nodes=" + (st.nodes + "\n\n"));
    var s8 := " Partition=" + tail;
    var s7 := IntToDecimal(st.startTime as int) + s8;
    var s6 := " " + ("StartTime=" + s7);
    assert s6 == " StartTime=" + s7;
    var s5 := NatToDecimal(st.userId as nat) + s6;
    var s4 := " UserId=" + s5;
    var s3 := NatToDecimal(st.stepId as nat) + s4;
    var s2 := " StepId=" + s3;
    var s1 := NatToDecimal(st.jobId as nat) + s2;
    ExpectLitPrefix("JobId=", s1);
    NatRoundTrip(st.jobId as nat, s2);
    ExpectLitPrefix(" StepId=", s3);
    NatRoundTrip(st.stepId as nat, s4);
    ExpectLitPrefix(" UserId=", s5);
    NatRoundTrip(st.userId as nat, s6);
    ExpectLitPrefix(" StartTime=", s7);
    IntRoundTrip(st.startTime as int, s8);
    ExpectLitPrefix(" Partition=", tail);
  }
}
