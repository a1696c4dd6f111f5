/** `SFTP_Deploy_Task`: one call of `Perform` pushes at most one batch of the
    exported files to the SFTP folder and says whether the run is over. */
module DeployTask {
  import opened Wrappers
  import opened Settings
  import opened Catalog
  import opened Hooks
  import opened Transfer
  import opened Progress

  /** Lines 135-136: `ssp_sftp_batch_size` and `ssp_throttle_sftp_request`
      when no filter changes them; `Perform` takes the filtered values. */
  const DefaultBatchSize: nat := 250
  const DefaultThrottle: bool := true

  /** A phpseclib SFTP session: where it points and whether `login` succeeded. */
  datatype Client = Client(host: string, port: nat, user: string, pass: string, authenticated: bool)

  /** Lines 100-114: the client built from the options, with the outcome of
      its one `login` attempt. */
  function Connect(config: Config, loginOk: bool): (r: Client)
    ensures r.user == config.user && r.pass == config.pass && r.authenticated == loginOk
    ensures r.port > 0
    ensures PortIsSet(config.port) ==> r.port == Absint(config.port.value)
    ensures !PortIsSet(config.port) ==> r.port == DefaultSftpPort
    ensures !(Scheme <= config.host) ==> r.host == config.host
    ensures Scheme <= config.host ==> r.host == RemoveAll(config.host[|Scheme|..], Scheme)
  {
    Client(StripScheme(config.host), Absint(DefaultPort(config.port)), config.user, config.pass, loginOk)
  }

  /** Lines 161-165: the "Uploading" message, saved only once some progress
      has been made. */
  function ProgressNotice(processed: int, total: int): (r: seq<Event>)
    ensures r == [] <==> processed == 0
    ensures forall e :: e in r ==> e == Status(Uploading(processed, total))
  {
    if processed != 0 then [Status(Uploading(processed, total))] else []
  }

  /** Line 56 to 62: the stored start time, or `now` when none is stored. */
  function StartTimeFor(transient: Option<nat>, now: nat): (r: nat)
    ensures transient.Some? ==> r == transient.value
    ensures transient.None? ==> r == now
  {
    if transient.Some? then transient.value else now
  }

  /** The WordPress state the task works on: the `ssp_sftp_deploy_start_time`
      transient, the page table, and the messages and actions emitted so far. */
  class Site {
    var transient: Option<nat>
    var pages: seq<Page>
    var events: seq<Event>

    constructor (pages: seq<Page>)
      ensures this.pages == pages && transient.None? && events == []
    {
      this.pages := pages;
      transient := None;
      events := [];
    }
  }

  class SftpDeployTask {
    const site: Site
    const config: Config
    /** `$this->temp_dir`, the local export directory. */
    const tempDir: string
    /** `$this->start_time`. */
    var startTime: Option<nat>
    /** `$this->sftp`: null until the first `GetSftp`, then the client. */
    var sftp: Option<Client>
    /** How often `login` has been called on this instance. */
    ghost var loginAttempts: nat
    /** The `put` calls made so far. */
    ghost var uploads: seq<Upload>
    /** The one-second pauses taken so far. */
    ghost var pauses: nat

    ghost predicate Valid()
      reads this
    {
      loginAttempts == if sftp.Some? then 1 else 0
    }

    /** Lines 46-53; the start time taken from `archive_start_time` is
        overwritten by every `GetStartTime`. */
    constructor (site: Site, config: Config, archiveDir: string, archiveStartTime: Option<nat>)
      ensures Valid()
      ensures this.site == site && this.config == config && tempDir == archiveDir
      ensures startTime == archiveStartTime && sftp.None?
      ensures uploads == [] && pauses == 0
    {
      this.site := site;
      this.config := config;
      tempDir := archiveDir;
      startTime := archiveStartTime;
      sftp := None;
      loginAttempts := 0;
      uploads := [];
      pauses := 0;
    }

    /** Lines 55-65: get-or-create the start time of the run. Whatever the
        field held before is replaced. */
    method GetStartTime(now: nat) returns (t: nat)
      modifies this`startTime, site`transient
      ensures old(site.transient).Some? ==> t == old(site.transient).value
      ensures old(site.transient).None? ==> t == now
      ensures startTime == Some(t) && site.transient == Some(t)
    {
      startTime := site.transient;
      if startTime.None? {
        var start := now;
        site.transient := Some(start);
        startTime := Some(start);
      }
      t := startTime.value;
    }

    /** Lines 98-124: connect and log in on the first call only. The client is
        cached before `login`, so after a failed login the first call answers
        None and every later call answers the unauthenticated client. */
    method GetSftp(loginOk: bool) returns (c: Option<Client>)
      requires Valid()
      modifies this`sftp, this`loginAttempts
      ensures Valid() && sftp.Some? && loginAttempts == 1
      ensures old(sftp).Some? ==> sftp == old(sftp) && c == sftp
      ensures old(sftp).None? ==> sftp == Some(Connect(config, loginOk))
      ensures old(sftp).None? ==> (c.Some? <==> loginOk) && (loginOk ==> c == sftp)
    {
      if sftp.None? {
        var host := config.host;
        var port := config.port;
        var effectivePort := DefaultPort(port);
        if Scheme <= host {
          host := StripScheme(host);
        }
        var client := Client(host, Absint(effectivePort), config.user, config.pass, false);
        sftp := Some(client);
        loginAttempts := loginAttempts + 1;
        var login := loginOk;
        sftp := Some(client.(authenticated := login));
        if !login {
          return None;
        }
      }
      c := sftp;
    }

    /** Lines 134-192: select the batch, take the counts, then upload, pause
        and stamp record by record. `putOk(id)` is the server's answer to the
        upload of record `id`. */
    method UploadStaticFiles(destinationDir: string, now: nat, batchSize: nat, throttle: bool, putOk: nat -> bool)
      returns (processed: int, total: int)
      requires sftp.Some?
      modifies site`pages, site`events, this`uploads, this`pauses
      ensures total == Total(old(site.pages))
      ensures processed == Processed(old(site.pages), startTime, batchSize)
      ensures var rows := Fetch(old(site.pages), SelectBatch(old(site.pages), startTime, batchSize));
              var auth := sftp.value.authenticated;
              var puts := PutCalls(rows, RemoteFolder(config.folder), tempDir);
              && site.pages == StampRows(old(site.pages), rows, putOk, auth, now)
              && site.events == old(site.events) + ProgressNotice(processed, total) + TransferEvents(rows, putOk, auth, destinationDir)
              && uploads == old(uploads) + puts
              && pauses == old(pauses) + (if throttle then |puts| else 0)
    {
      var batch := SelectBatch(site.pages, startTime, batchSize);
      var staticPages := Fetch(site.pages, batch);
      var pagesRemaining := |staticPages|;
      total := Total(site.pages);
      processed := total - pagesRemaining;

      var client := sftp.value;
      var folder := config.folder;
      if Truthy(folder) {
        folder := TrailingSlashIt(folder);
      }

      assert folder == RemoteFolder(config.folder);
      assert processed == Processed(site.pages, startTime, batchSize);

      if processed != 0 {
        site.events := site.events + [Status(Uploading(processed, total))];
      }
      assert site.events == old(site.events) + ProgressNotice(processed, total);

      TransferBatch(staticPages, folder, client, destinationDir, now, throttle, putOk);
    }

    /** Lines 167-189: drain the fetched records in order, handling each one. */
    method TransferBatch(staticPages: seq<Row>, folder: string, client: Client, destinationDir: string, now: nat, throttle: bool, putOk: nat -> bool)
      requires RowsIn(site.pages, staticPages)
      modifies site`pages, site`events, this`uploads, this`pauses
      ensures site.pages == StampRows(old(site.pages), staticPages, putOk, client.authenticated, now)
      ensures site.events == old(site.events) + TransferEvents(staticPages, putOk, client.authenticated, destinationDir)
      ensures uploads == old(uploads) + PutCalls(staticPages, folder, tempDir)
      ensures pauses == old(pauses) + (if throttle then |PutCalls(staticPages, folder, tempDir)| else 0)
    {
      ghost var rows := staticPages;
      var queue := staticPages;
      var k := 0;
      while queue != []
        invariant 0 <= k <= |rows| && queue == rows[k..]
        invariant |site.pages| == |old(site.pages)|
        invariant site.pages == StampRows(old(site.pages), rows[..k], putOk, client.authenticated, now)
        invariant site.events == old(site.events) + TransferEvents(rows[..k], putOk, client.authenticated, destinationDir)
        invariant uploads == old(uploads) + PutCalls(rows[..k], folder, tempDir)
        invariant pauses == old(pauses) + (if throttle then |PutCalls(rows[..k], folder, tempDir)| else 0)
        decreases |queue|
      {
        var staticPage := queue[0];
        queue := queue[1..];
        RowsStep(old(site.pages), rows, k, putOk, client.authenticated, now, folder, tempDir, destinationDir);
        k := k + 1;
        TransferOne(staticPage, folder, client, destinationDir, now, throttle, putOk);
      }
      assert rows[..|rows|] == rows;
    }

    /** Lines 168-188, one pass of the loop: upload an existing regular file
        (pausing after the attempt when throttling) and, unless that upload
        failed, fire the action and save the record with a new timestamp. */
    method TransferOne(staticPage: Row, folder: string, client: Client, destinationDir: string, now: nat, throttle: bool, putOk: nat -> bool)
      requires staticPage.id < |site.pages|
      modifies site`pages, site`events, this`uploads, this`pauses
      ensures site.pages == StampRow(old(site.pages), staticPage, putOk, client.authenticated, now)
      ensures site.events == old(site.events) + RowEvents(staticPage, putOk, client.authenticated, destinationDir)
      ensures uploads == old(uploads) + RowPuts(staticPage, folder, tempDir)
      ensures pauses == old(pauses) + (if throttle then |RowPuts(staticPage, folder, tempDir)| else 0)
    {
      var filePath := LocalPath(tempDir, staticPage.page.path);
      var uploadPath := RemotePath(folder, staticPage.page.path);

      if !staticPage.page.isDir && staticPage.page.onDisk {
        var upload := client.authenticated && putOk(staticPage.id);
        uploads := uploads + [Upload(uploadPath, filePath)];
        if throttle {
          pauses := pauses + 1;
        }
        if !upload {
          return;
        }
      }

      site.events := site.events + [FileTransferred(staticPage.page, destinationDir)];
      site.pages := site.pages[staticPage.id := staticPage.page.(lastTransferred := Some(now))];
    }

    /** Lines 73-96: one step of the run. True means "stop calling": either
        the login failed, or this invocation's batch was empty, in which case
        the start time is cleared and `ssp_finished_sftp_transfer` fires. */
    method Perform(now: nat, loginOk: bool, batchSize: nat, throttle: bool, putOk: nat -> bool) returns (done: bool)
      requires Valid()
      modifies this, site
      ensures Valid() && sftp.Some?
      ensures startTime == Some(StartTimeFor(old(site.transient), now))
      ensures old(sftp).None? && !loginOk ==>
                && done
                && sftp == Some(Connect(config, false))
                && site.pages == old(site.pages)
                && site.transient == startTime
                && site.events == old(site.events) + [Status(AuthFailed)]
                && uploads == old(uploads) && pauses == old(pauses)
      ensures old(sftp).Some? || loginOk ==>
                var client := if old(sftp).Some? then old(sftp).value else Connect(config, true);
                var pages := old(site.pages);
                var batch := SelectBatch(pages, startTime, batchSize);
                var rows := Fetch(pages, batch);
                var processed := Processed(pages, startTime, batchSize);
                var total := Total(pages);
                var puts := PutCalls(rows, RemoteFolder(config.folder), tempDir);
                && sftp == Some(client)
                && done == (processed >= total)
                && (done <==> batch == [])
                && site.pages == StampRows(pages, rows, putOk, client.authenticated, now)
                && site.transient == (if done then None else startTime)
                && site.events == old(site.events)
                     + ProgressNotice(processed, total)
                     + TransferEvents(rows, putOk, client.authenticated, tempDir)
                     + (if done then [Status(Uploaded(processed, total)), FinishedTransfer(tempDir)] else [])
                && uploads == old(uploads) + puts
                && pauses == old(pauses) + (if throttle then |puts| else 0)
    {
      var _ := GetStartTime(now);

      var client := GetSftp(loginOk);
      if client.None? {
        site.events := site.events + [Status(AuthFailed)];
        return true;
      }

      var pagesProcessed, totalPages := UploadStaticFiles(tempDir, now, batchSize, throttle, putOk);

      if pagesProcessed >= totalPages {
        site.events := site.events + [Status(Uploaded(pagesProcessed, totalPages))];
        site.transient := None;
        site.events := site.events + [FinishedTransfer(tempDir)];
      }

      done := pagesProcessed >= totalPages;
    }
  }

  /** Two start-time lookups with no deletion in between agree, whatever the
      clock says at the second one. */
  method StartTimeIsStable(task: SftpDeployTask, now1: nat, now2: nat) returns (t1: nat, t2: nat)
    modifies task, task.site
    ensures t1 == t2
    ensures old(task.site.transient).Some? ==> t1 == old(task.site.transient).value
  {
    t1 := task.GetStartTime(now1);
    t2 := task.GetStartTime(now2);
  }

  /** Two `GetSftp` calls on a fresh task log in once. After a failed login
      the first call answers None and the second the cached, unauthenticated
      client. */
  method LoginAttemptedOnce(task: SftpDeployTask, ok1: bool, ok2: bool) returns (c1: Option<Client>, c2: Option<Client>)
    requires task.Valid() && task.sftp.None?
    modifies task
    ensures task.loginAttempts == 1
    ensures c2 == Some(Connect(task.config, ok1))
    ensures c1.None? <==> !ok1
  {
    c1 := task.GetSftp(ok1);
    c2 := task.GetSftp(ok2);
  }
}
