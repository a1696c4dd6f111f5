# SFTP deploy task of Simply Static Pro, in Dafny

This project models `SFTP_Deploy_Task`, the task Simply Static Pro uses to push
an exported static site to an SFTP server. The task runs in a loop. Each call
of `perform` does the following:

1. It finds or creates the start time of the run, kept in the
   `ssp_sftp_deploy_start_time` transient.
2. It connects and logs in once per task object.
3. It selects at most one batch of catalog records that have a path and were
   not transferred since the start time.
4. It reports progress, then uploads each existing regular file of the batch,
   pausing after each upload when throttling is on.
5. It stamps each record that got through with a new transfer time and fires
   `ssp_file_transferred_to_sftp` for it.
6. It answers "done" when the processed count reaches the total. In that case
   it also clears the start time and fires `ssp_finished_sftp_transfer`.

Modules:

- `Settings` (settings.dfy) covers the connection options:
  - port defaulting and `absint`;
  - the `sftp://` stripping done by `str_replace`;
  - WordPress's `trailingslashit` and `untrailingslashit`;
  - the local and remote path of a file.
- `Catalog` (catalog.dfy) holds the page table as a sequence of records. It
  also has the batch query as a filter followed by a limit, and the total count.
- `Hooks` (hooks.dfy) covers the status messages and the two actions as events.
- `Transfer` (transfer.dfy) specifies the transfer loop as functions of the
  fetched batch: the new catalog, the `put` calls and the actions.
- `Progress` (progress.dfy) covers the processed/total arithmetic, the done
  decision, and what successive invocations of one run do.
- `DeployTask` (deploy_task.dfy) is the imperative model.
  - The class `Site` holds the WordPress state the task changes: the
    transient, the page table and the emitted events.
  - The class `SftpDeployTask` holds the task's fields: `start_time`, `sftp`
    and `temp_dir`. It also has ghost records of the login attempts, the `put`
    calls and the pauses.
  - Its methods follow `get_start_time`, `get_sftp`, `upload_static_files` and
    `perform` statement by statement. Each method is proved against the
    functions of `Transfer` and `Progress`.

The environment enters as parameters:

- `now` is the one clock reading an invocation uses.
- `loginOk` is the answer of `login`.
- `putOk(id)` is the server's answer to the upload of record `id`.
- `batchSize` and `throttle` are the values of the two filters.

A `put` on a client that is not logged in fails, as phpseclib refuses to send
on an unauthenticated connection.

The processed count is computed before the loop. It is the total less the size
of the limited batch, not less the number of records still pending. So the
first invocation of a fresh run with more records than the batch size already
reports progress. Also, the invocation that sends the last records still answers
"not done", and only the next one, whose batch is empty, finishes the run.
`CompletionLag` and `FiveFilesBatchOfThree` state this.

## Model

| member | source | states |
|---|---|---|
| Settings.DefaultPort | wp-content/plugins/simply-static-pro/src/deployment/sftp/class-ssp-sftp-deploy-task.php:105-107 | A falsy port (unset or 0) becomes 22; any other port is kept; the result is never 0 |
| Settings.Absint | wp-content/plugins/simply-static-pro/src/deployment/sftp/class-ssp-sftp-deploy-task.php:113 | The port handed to the client is the magnitude of the configured one |
| Settings.RemoveAll | wp-content/plugins/simply-static-pro/src/deployment/sftp/class-ssp-sftp-deploy-task.php:110 | One `str_replace` pass never lengthens the host, and shortens it by at least the pattern when the host starts with it |
| Settings.RemoveAllFirst | wp-content/plugins/simply-static-pro/src/deployment/sftp/class-ssp-sftp-deploy-task.php:110 | For every string: up to the first `sftp://` every character is kept, that occurrence is dropped, and the scan goes on after it; with `RemoveAllAbsent` this fixes the result of `str_replace` for every host |
| Settings.RemoveAllAbsent | wp-content/plugins/simply-static-pro/src/deployment/sftp/class-ssp-sftp-deploy-task.php:110 | A host in which `sftp://` does not occur is left unchanged |
| Settings.StripScheme | wp-content/plugins/simply-static-pro/src/deployment/sftp/class-ssp-sftp-deploy-task.php:109-111 | A host not starting with `sftp://` is kept; one that does loses that prefix, and the rest goes through the same `str_replace` pass that `RemoveAllFirst` describes |
| Settings.StripSchemeLeading | wp-content/plugins/simply-static-pro/src/deployment/sftp/class-ssp-sftp-deploy-task.php:109-111 | `sftp://` followed by a host without the scheme gives exactly that host |
| Settings.StripSchemeRemovesInner | wp-content/plugins/simply-static-pro/src/deployment/sftp/class-ssp-sftp-deploy-task.php:109-111 | Occurrences after the head are removed as well (`sftp://sftp://h` gives `h`) |
| Settings.StripSchemeSinglePass | wp-content/plugins/simply-static-pro/src/deployment/sftp/class-ssp-sftp-deploy-task.php:109-111 | The replacement is one pass: pieces joined by a removal can form a new `sftp://`, which stays in the result |
| Settings.Untrailing | wp-content/plugins/simply-static-pro/src/deployment/sftp/class-ssp-sftp-deploy-task.php:158 | The result is a prefix of the input without a trailing slash or backslash, and only slashes were removed |
| Settings.TrailingSlashIt | wp-content/plugins/simply-static-pro/src/deployment/sftp/class-ssp-sftp-deploy-task.php:158 | The folder ends in exactly one `/`; what precedes it is a prefix of the configured folder, and only slashes and backslashes were dropped from it |
| Settings.TrailingSlashItIdempotent | wp-content/plugins/simply-static-pro/src/deployment/sftp/class-ssp-sftp-deploy-task.php:158 | Adding the trailing slash twice is the same as adding it once |
| Settings.RemoteFolder | wp-content/plugins/simply-static-pro/src/deployment/sftp/class-ssp-sftp-deploy-task.php:155-159 | A truthy folder ends in `/`; a falsy one (`""` or `"0"`) is used as configured |
| Settings.RemotePathJoin | wp-content/plugins/simply-static-pro/src/deployment/sftp/class-ssp-sftp-deploy-task.php:155-169 | With a truthy folder the remote path is the folder without its trailing slashes, one `/`, then the file path |
| Catalog.Pending | wp-content/plugins/simply-static-pro/src/deployment/sftp/class-ssp-sftp-deploy-task.php:140-142 | The WHERE clause of the batch query: a non-empty path, and a transfer time that is NULL or, with a start time, earlier than it |
| Catalog.PendingUpTo | wp-content/plugins/simply-static-pro/src/deployment/sftp/class-ssp-sftp-deploy-task.php:139-142 | Exactly the positions below `n` of records with a path and a transfer time that is NULL or before the start, in increasing order |
| Catalog.SelectBatch | wp-content/plugins/simply-static-pro/src/deployment/sftp/class-ssp-sftp-deploy-task.php:139-144 | The batch is the first `min(limit, pending)` pending records in catalog order; a batch shorter than the limit holds every pending record |
| Catalog.BatchSkipsNothing | wp-content/plugins/simply-static-pro/src/deployment/sftp/class-ssp-sftp-deploy-task.php:139-144 | No pending record before the last one of the batch is left out of it |
| Catalog.PathCount | wp-content/plugins/simply-static-pro/src/deployment/sftp/class-ssp-sftp-deploy-task.php:146-149 | The count of records with a path never exceeds the records counted |
| Catalog.PendingWithinPathCount | wp-content/plugins/simply-static-pro/src/deployment/sftp/class-ssp-sftp-deploy-task.php:139-149 | The pending records are no more than the total |
| Catalog.Total | wp-content/plugins/simply-static-pro/src/deployment/sftp/class-ssp-sftp-deploy-task.php:146-149 | The count of records with a non-empty path, at most the number of records |
| Catalog.PathCountSamePaths | wp-content/plugins/simply-static-pro/src/deployment/sftp/class-ssp-sftp-deploy-task.php:146-149 | The total depends only on the paths, so writing timestamps leaves it unchanged |
| Catalog.PendingCountShrinks | wp-content/plugins/simply-static-pro/src/deployment/sftp/class-ssp-sftp-deploy-task.php:139-145 | A catalog whose pending records are among another's has no more pending records |
| Transfer.Fetch | wp-content/plugins/simply-static-pro/src/deployment/sftp/class-ssp-sftp-deploy-task.php:139-144 | The fetched rows are the selected records, in the selected order, each with its catalog position |
| Transfer.Delivered | wp-content/plugins/simply-static-pro/src/deployment/sftp/class-ssp-sftp-deploy-task.php:171-183 | A record is stamped when it is not an existing regular file, or when its `put` succeeded on a logged-in client |
| Transfer.StampRow | wp-content/plugins/simply-static-pro/src/deployment/sftp/class-ssp-sftp-deploy-task.php:171-188 | Handling one record keeps the catalog's size; which slot changes, and how, is stated by `StampRowsAt` |
| Transfer.StampRows | wp-content/plugins/simply-static-pro/src/deployment/sftp/class-ssp-sftp-deploy-task.php:167-189 | Handling the batch keeps the catalog's size; which slots change, and how, is stated by `StampRowsAt` |
| Transfer.RowsStep | wp-content/plugins/simply-static-pro/src/deployment/sftp/class-ssp-sftp-deploy-task.php:167-189 | Handling one more record extends the catalog, the actions and the uploads by that record's effect alone |
| Transfer.StampRowsAt | wp-content/plugins/simply-static-pro/src/deployment/sftp/class-ssp-sftp-deploy-task.php:167-189 | A batch record whose file was skipped or uploaded carries the new timestamp; a failed upload and every record outside the batch are unchanged |
| Transfer.PutCallsPaths | wp-content/plugins/simply-static-pro/src/deployment/sftp/class-ssp-sftp-deploy-task.php:168-173 | Every existing regular file of the batch gets a `put` of folder + path from temp dir + path, no other `put` is made, and there are exactly as many as such files |
| Progress.Processed | wp-content/plugins/simply-static-pro/src/deployment/sftp/class-ssp-sftp-deploy-task.php:145-151 | The processed count lies between 0 and the total, and reaches the total exactly when the batch is empty |
| Progress.DoneIffNothingPending | wp-content/plugins/simply-static-pro/src/deployment/sftp/class-ssp-sftp-deploy-task.php:145-151 | With a positive batch size the task answers done exactly when no record is pending |
| Progress.DeliveredLeavesPending | wp-content/plugins/simply-static-pro/src/deployment/sftp/class-ssp-sftp-deploy-task.php:167-189 | After an invocation a batch record is pending again exactly when its upload failed; records outside the batch are untouched |
| Progress.BatchPrefixHandled | wp-content/plugins/simply-static-pro/src/deployment/sftp/class-ssp-sftp-deploy-task.php:167-189 | After the first `k` records of the batch, those delivered carry the new timestamp and every other record is as it was; this is the state an invocation interrupted there leaves |
| Progress.ProgressMonotone | wp-content/plugins/simply-static-pro/src/deployment/sftp/class-ssp-sftp-deploy-task.php:145-189 | Across invocations of one run the total is fixed and the processed count never decreases |
| Progress.CompletionLag | wp-content/plugins/simply-static-pro/src/deployment/sftp/class-ssp-sftp-deploy-task.php:145-189 | The invocation that sends the last pending records answers not done; the next one answers done |
| Progress.IncreasingUnique | wp-content/plugins/simply-static-pro/src/deployment/sftp/class-ssp-sftp-deploy-task.php:139-144 | Two increasing position lists holding the same records are equal, so a batch is determined by the records it selects |
| Progress.IncreasingSuffix | wp-content/plugins/simply-static-pro/src/deployment/sftp/class-ssp-sftp-deploy-task.php:139-144 | The pending records after a batch prefix are exactly those not in the prefix |
| Progress.AcceptedBatchDrains | wp-content/plugins/simply-static-pro/src/deployment/sftp/class-ssp-sftp-deploy-task.php:139-189 | When every upload is accepted, the records still pending are exactly those after the batch, in order |
| Progress.AcceptedBatchCounts | wp-content/plugins/simply-static-pro/src/deployment/sftp/class-ssp-sftp-deploy-task.php:145-189 | When every upload is accepted, the total is unchanged and the pending count drops by the batch size |
| Progress.FreshCatalog | wp-content/plugins/simply-static-pro/src/deployment/sftp/class-ssp-sftp-deploy-task.php:139-149 | In a catalog of never-transferred files every record is counted and pending |
| Progress.FiveLeftOfFive | wp-content/plugins/simply-static-pro/src/deployment/sftp/class-ssp-sftp-deploy-task.php:145-189 | With five pending of five and a batch of three, the invocation reports 2 processed and leaves two pending |
| Progress.TwoLeftOfFive | wp-content/plugins/simply-static-pro/src/deployment/sftp/class-ssp-sftp-deploy-task.php:145-189 | With two pending of five and a batch of three, the invocation reports 3 processed and the next reports 5 |
| Progress.FiveFilesBatchOfThree | wp-content/plugins/simply-static-pro/src/deployment/sftp/class-ssp-sftp-deploy-task.php:145-189 | Five fresh files and a batch of three: the invocations report 2, 3 and 5 of 5, and only the third is done |
| DeployTask.Site.constructor | wp-content/plugins/simply-static-pro/src/deployment/sftp/class-ssp-sftp-deploy-task.php:46-53 | The site state the task starts from: the given catalog, no stored start time, no messages or actions yet |
| DeployTask.StartTimeFor | wp-content/plugins/simply-static-pro/src/deployment/sftp/class-ssp-sftp-deploy-task.php:56-62 | The start time is the stored transient when there is one, and the current time otherwise |
| DeployTask.Connect | wp-content/plugins/simply-static-pro/src/deployment/sftp/class-ssp-sftp-deploy-task.php:100-114 | The client gets the configured credentials, a positive port (the magnitude of the configured one, or 22 when it is falsy), the host with `sftp://` stripped when it starts with it, and the outcome of `login` |
| DeployTask.ProgressNotice | wp-content/plugins/simply-static-pro/src/deployment/sftp/class-ssp-sftp-deploy-task.php:161-165 | The "Uploading" message is saved exactly when the processed count is not 0, and carries the processed count and the total |
| DeployTask.SftpDeployTask.constructor | wp-content/plugins/simply-static-pro/src/deployment/sftp/class-ssp-sftp-deploy-task.php:46-53 | The task starts with the archive directory, the archive start time and no client |
| DeployTask.SftpDeployTask.GetStartTime | wp-content/plugins/simply-static-pro/src/deployment/sftp/class-ssp-sftp-deploy-task.php:55-65 | The stored start time is returned if there is one; otherwise `now` is stored and returned; the field always ends equal to the transient |
| DeployTask.StartTimeIsStable | wp-content/plugins/simply-static-pro/src/deployment/sftp/class-ssp-sftp-deploy-task.php:55-65 | Two lookups agree whatever the clock says at the second |
| DeployTask.SftpDeployTask.GetSftp | wp-content/plugins/simply-static-pro/src/deployment/sftp/class-ssp-sftp-deploy-task.php:98-124 | The first call connects with the stripped host and defaulted port and logs in once, answering no client exactly when login fails; later calls answer the cached client |
| DeployTask.LoginAttemptedOnce | wp-content/plugins/simply-static-pro/src/deployment/sftp/class-ssp-sftp-deploy-task.php:98-124 | Two calls log in once; after a failed login the second call answers the cached unauthenticated client |
| DeployTask.SftpDeployTask.UploadStaticFiles | wp-content/plugins/simply-static-pro/src/deployment/sftp/class-ssp-sftp-deploy-task.php:134-192 | Returns the processed count and the total, and leaves the catalog, messages, actions, uploads and pauses as the transfer specification says |
| DeployTask.SftpDeployTask.TransferBatch | wp-content/plugins/simply-static-pro/src/deployment/sftp/class-ssp-sftp-deploy-task.php:167-189 | The loop over the fetched records does what the specification functions say for the whole batch |
| DeployTask.SftpDeployTask.TransferOne | wp-content/plugins/simply-static-pro/src/deployment/sftp/class-ssp-sftp-deploy-task.php:168-188 | One record: an existing regular file is uploaded (with a pause when throttling), and unless that failed the action fires and the record is stamped |
| DeployTask.SftpDeployTask.Perform | wp-content/plugins/simply-static-pro/src/deployment/sftp/class-ssp-sftp-deploy-task.php:73-96 | A failed first login only saves the error message and answers done. Otherwise the batch is handled, and the answer is done exactly when the batch was empty, in which case the start time is cleared and the finishing message and action follow |

## Left out

- The SFTP protocol (phpseclib) is not part of this model. A session is a value recording host, port, credentials and whether `login` succeeded. `login` and `put` are answered by the `loginOk` and `putOk` parameters.
- `is_dir` and `file_exists` on the local copy are the `isDir` and `onDisk` fields of each record, fixed for an invocation.
- `sleep(1)` is counted in the ghost field `pauses` rather than waited for.
- `save_status_message` and `do_action` are events appended to `Site.events`. The message texts and their translation are reduced to the message kind and its two numbers.
- `Util::debug_log` is left out, because it has no effect the task depends on.
- The query builder and SQL are modelled as a filter in catalog order followed by a limit. Paths are strings, and a NULL path is the empty one.
- Timestamps are natural numbers compared as numbers, standing for the formatted date-time strings the source compares. `Util::formatted_datetime` is one `now` per invocation.
- `Options` is not part of this model. The options are a `Config` value, and the port is an optional integer without PHP's string-to-number conversion.
- `Settings.TrailingSlashIt`, `Settings.Untrailing` and `Settings.Absint` are written from the documented behaviour of WordPress's `trailingslashit`, `untrailingslashit` and `absint`, not from their source, which is not part of this model.
- The two filters `ssp_sftp_batch_size` and `ssp_throttle_sftp_request` are parameters; `DefaultBatchSize` and `DefaultThrottle` record their defaults.
- A batch size of 0 selects nothing, as SQL `LIMIT 0` does. A query builder that dropped a zero limit is not modelled.
- DeployTask.SftpDeployTask.UploadStaticFiles requires a client already stored in the task, as it always is when called from `perform`. A direct call on a fresh task, whose own `get_sftp` call could return `false` before a `put`, is not modelled.
- Exceptions are not modelled. `perform` and `upload_static_files` are declared to throw (lines 71 and 132), and a throwing `login`, `put` or `save()` would end an invocation part-way through the loop. In the model every method returns normally and the loop always finishes. `Progress.BatchPrefixHandled` states the catalog an invocation stopped after `k` records would leave, but the aborted invocation itself (no progress or finishing message, start time kept) is not modelled.
- Two PHP processes running the task at once are not modelled.
- The WP-CLI command in `wp-content/plugins/simply-static-pro/src/wp-cli/general/class-ssp-simply-cdn.php` is not part of this model.
