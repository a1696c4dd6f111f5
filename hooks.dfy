/** What one invocation makes visible to the rest of WordPress: status
    messages (`save_status_message`) and the two actions it fires. */
module Hooks {
  import opened Catalog

  datatype Message =
    | AuthFailed                            // line 78
    | Uploading(processed: int, total: int) // line 163
    | Uploaded(processed: int, total: int)  // line 86

  datatype Event =
    | Status(message: Message)
    | FileTransferred(page: Page, destination: string) // `ssp_file_transferred_to_sftp`, line 185
    | FinishedTransfer(dir: string)                    // `ssp_finished_sftp_transfer`, line 92
}
