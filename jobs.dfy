/** A prepared email job, the unit the campaign queue holds and the batch
    workers send. Only the fields the dispatch engine reads are kept. */
module Jobs {
  import opened Common

  /** The job's `type`: `appsscript`, `genericsmtp`, or anything else. */
  datatype Kind = AppsScript | GenericSmtp | OtherKind(name: string)

  /** A `From` value: `formataddr((name, email))`, kept as its two parts, or
      a bare string used as it is. */
  datatype Address = Formatted(name: string, email: string) | Bare(text: string)

  /** The `{success, message, elapsed}` record a transport returns. */
  datatype SendResult = SendResult(success: bool, message: string, elapsed: real)

  datatype Job = Job(
    jobId: string,
    kind: Kind,
    /** The sender configuration's `nickname`, when it has one. */
    nickname: Option<string>,
    recipients: seq<string>,
    subject: string,
    htmlBody: Option<string>,
    plainBody: Option<string>,
    /** `all_custom_headers`, in insertion order. */
    allHeaders: Dict,
    /** `custom_headers_dict`, the headers handed to Apps Script (empty when absent). */
    scriptHeaders: Dict,
    senderDisplayName: Option<string>,
    fromAddress: Option<Address>,
    /** The limiter a batch worker attached, by its pool nickname. */
    limiter: Option<string>)

  const TestPrefix: string := "TEST_"

  /** A job whose id starts with `TEST_` is an automated test send. */
  predicate IsTestJob(j: Job) {
    StartsWith(j.jobId, TestPrefix)
  }
}
