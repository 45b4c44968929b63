/**
 * `/api/setup/check-setup-status`: setup counts as complete exactly when
 * the marker file exists in the working directory.
 */
module SetupStatus {
  import opened Http
  import SetupComplete

  /** `path.join(process.cwd(), "setup-complete.json")`, relative to the working directory. */
  const StatusFile := "setup-complete.json"

  datatype Json = MessageBody(message: string) | StatusBody(setupCompleted: bool)

  datatype Response = Response(status: nat, body: Json)

  /**
   * The reply for `files`, the working directory's files and their
   * contents; `probeFails` says that `fs.existsSync` threw.
   */
  function CheckSetupStatus(httpMethod: HttpMethod, files: map<string, string>, probeFails: bool): (r: Response)
    ensures httpMethod != GET <==> r == Response(405, MessageBody("Method not allowed"))
    ensures httpMethod == GET ==> r.status == 200 && r.body.StatusBody?
  {
    if httpMethod != GET then Response(405, MessageBody("Method not allowed"))
    else Response(200, StatusBody(!probeFails && StatusFile in files))
  }

  /** A GET reports completion exactly when the probe works and the marker is there. */
  lemma CompletedIff(files: map<string, string>, probeFails: bool)
    ensures CheckSetupStatus(GET, files, probeFails).body.setupCompleted <==> !probeFails && StatusFile in files
  {
  }

  /** Only the marker's existence matters: its contents, even `{"completed":false}`, are never read. */
  lemma ContentsIgnored(files: map<string, string>, files': map<string, string>, httpMethod: HttpMethod, probeFails: bool)
    requires (StatusFile in files) == (StatusFile in files')
    ensures CheckSetupStatus(httpMethod, files, probeFails) == CheckSetupStatus(httpMethod, files', probeFails)
  {
  }

  /** The file the setup writes is the file this endpoint looks for. */
  lemma SameMarker()
    ensures StatusFile == SetupComplete.MarkerFile
  {
  }

  /** Once the setup has written its marker, a working probe reports completion. */
  lemma MarkerSeen(files: map<string, string>, timestamp: string)
    ensures CheckSetupStatus(GET, files[SetupComplete.MarkerFile := SetupComplete.MarkerContent(timestamp)], false)
      == Response(200, StatusBody(true))
  {
  }

  /** A failing probe is reported as "not completed", still with status 200. */
  lemma ProbeFailureReadsIncomplete(files: map<string, string>)
    ensures CheckSetupStatus(GET, files, true) == Response(200, StatusBody(false))
  {
  }
}
