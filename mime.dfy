/** The part of MimeKit's object model the service fills in: mailboxes, attachment parts and
    the message itself, as records with lists. */
module Mime {

  import opened Exceptions
  import opened Base64

  /** MailboxAddress: an optional display name and an address. */
  datatype Mailbox = Mailbox(name: Option<string>, address: string)

  /** The MimeKit ContentEncoding values the service uses. */
  datatype ContentEncoding = DefaultEncoding | Base64Encoding

  /** A leaf MIME part: media type and subtype, Content-Disposition, the transfer encoding
      used on the wire, the encoding the content is already in, the file name and the
      raw content. */
  datatype MimePart = MimePart(
    mediaType: string,
    mediaSubtype: string,
    disposition: string,
    transferEncoding: ContentEncoding,
    contentEncoding: ContentEncoding,
    fileName: string,
    content: seq<byte>)

  /** What BodyBuilder turns into the message body: the HTML text and the attachments. */
  datatype Body = Body(htmlBody: string, attachments: seq<MimePart>)

  /** MimeMessage: the From, To, Cc and Bcc address lists, the subject and the body. */
  datatype MimeMessage = MimeMessage(
    from: seq<Mailbox>,
    to: seq<Mailbox>,
    cc: seq<Mailbox>,
    bcc: seq<Mailbox>,
    subject: string,
    body: Body)

  /** The characters a part's content takes on the wire: base64 text for a Base64 part.
      Line breaking is left to the serialiser; see `Base64.DecodeAnyLineBreaks`. */
  function WireText(p: MimePart): (t: string)
    requires p.transferEncoding == Base64Encoding
    ensures Decode(t) == Some(p.content)
  {
    DecodeEncode(p.content);
    Encode(p.content)
  }
}
