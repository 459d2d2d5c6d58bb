/** The crate's error type, with the variants the modelled code produces. */
module Errors {
  datatype ActionbookError =
    | BrowserNotFound
    | BrowserLaunchFailed(message: string)
    | CdpConnectionFailed(message: string)
    | BrowserNotRunning
    | ElementNotFound(selector: string)
    | JavaScriptError(message: string)
    | ConfigError(message: string)
    | ProfileNotFound(name: string)
    | SetupError(message: string)
    | JsonError(message: string)
    | ExtensionError(message: string)
    | ExtensionAlreadyUpToDate(current: string, latest: string)
    | Other(message: string)
}
