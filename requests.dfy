/** The two request bodies the endpoints bind (EmailService.DTO.Request). Properties without
    [Required] may be null; Subject and MailMessage are [Required] and are taken as present. */
module Requests {

  import opened Exceptions
  import opened Base64

  /** An uploaded file (IFormFile): its file name and the whole content of its read stream. */
  datatype FormFile = FormFile(fileName: string, content: seq<byte>)

  datatype SendHTMLRequest = SendHTMLRequest(
    from: Option<string>,
    displayName: Option<string>,
    to: Option<string>,
    cc: Option<string>,
    bcc: Option<string>,
    mailMessage: string,
    subject: string,
    attachments: Option<seq<FormFile>>)

  datatype SendWithoutAttachmentRequest = SendWithoutAttachmentRequest(
    from: Option<string>,
    displayName: Option<string>,
    to: Option<string>,
    cc: Option<string>,
    bcc: Option<string>,
    mailMessage: string,
    subject: string)
}
