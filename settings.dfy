/** Configuration read once at start-up: EmailService.Infrastructure.Settings.MailServerConfig
    (section "MailServer") and AuthKeys (section "AuthKeys"). */
module Settings {

  import opened Exceptions

  /** The SMTP connection parameters and the default sender. DisplayName and From may be
      absent from the configuration, so they may be null. */
  datatype MailServerConfig = MailServerConfig(
    serverAddress: string,
    username: string,
    password: string,
    port: int,
    isUseSsl: bool,
    isUseStartTls: bool,
    displayName: Option<string>,
    from: Option<string>)

  /** The allowed "username:password" entries; null when the section has no Basic list. */
  datatype AuthKeys = AuthKeys(basic: Option<seq<string>>)
}
