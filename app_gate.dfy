/**
 * The application shell's setup gate: on mount it asks
 * `/api/setup/check-setup-status`, sends the browser to `/setup` when the
 * answer says setup is not completed, and shows "Loading..." on every
 * other page until the answer is in.
 */
module AppGate {
  import opened Wrappers
  import opened JsValues
  import opened Http
  import SetupStatus

  const SetupPath := "/setup"

  /** `data.setupCompleted` of a parsed reply; a body without the property reads as undefined. */
  function CompletedField(r: SetupStatus.Response): (v: JsValue)
    ensures r.body.StatusBody? ==> v == JBool(r.body.setupCompleted)
    ensures r.body.MessageBody? ==> v == JUndefined
  {
    match r.body
    case StatusBody(b) => JBool(b)
    case MessageBody(_) => JUndefined
  }

  /**
   * Whether the status check pushes `/setup`: the reply arrived, its
   * `setupCompleted` is falsy, and the current page is not the wizard.
   * `None` stands for a fetch or JSON parse that threw.
   */
  predicate Redirects(reply: Option<SetupStatus.Response>, pathname: string)
  {
    reply.Some? && !Truthy(CompletedField(reply.value)) && pathname != SetupPath
  }

  datatype View = Loading | PageView

  class App {
    var isLoading: bool
    /** Stored as its truthiness; the shell never reads it back. */
    var setupCompleted: bool
    const pathname: string
    /** The routes pushed onto the router, oldest first. */
    var pushed: seq<string>

    constructor(pathname: string)
      ensures isLoading && setupCompleted && this.pathname == pathname && pushed == []
    {
      isLoading := true;
      setupCompleted := true;
      this.pathname := pathname;
      pushed := [];
    }

    /** What the shell renders: the wizard renders at once, other pages wait for the status check. */
    function Render(): (v: View)
      reads this
      ensures v == Loading <==> isLoading && pathname != SetupPath
    {
      if isLoading && pathname != SetupPath then Loading else PageView
    }

    /** The effect's `checkSetupStatus`. */
    method CheckSetupStatus(reply: Option<SetupStatus.Response>)
      modifies this
      ensures !isLoading
      ensures pushed == old(pushed) + (if Redirects(reply, pathname) then [SetupPath] else [])
      ensures reply.None? ==> setupCompleted == old(setupCompleted)
      ensures reply.Some? ==> setupCompleted == Truthy(CompletedField(reply.value))
    {
      if reply.Some? {
        var completed := CompletedField(reply.value);
        setupCompleted := Truthy(completed);
        if !Truthy(completed) && pathname != SetupPath {
          pushed := pushed + [SetupPath];
        }
      }
      isLoading := false;
    }
  }

  /**
   * Against the status endpoint's GET answer the shell redirects exactly
   * when the page is not the wizard and the marker is missing or the probe failed.
   */
  lemma RedirectIff(files: map<string, string>, probeFails: bool, pathname: string)
    ensures Redirects(Some(SetupStatus.CheckSetupStatus(GET, files, probeFails)), pathname)
      <==> pathname != SetupPath && (probeFails || SetupStatus.StatusFile !in files)
  {
  }

  /** Once completed is reported, no page is redirected, and the wizard stays reachable. */
  lemma CompletedNeverRedirects(reply: SetupStatus.Response, pathname: string)
    requires reply.body == SetupStatus.StatusBody(true)
    ensures !Redirects(Some(reply), pathname)
  {
  }

  /** The wizard itself is never redirected, whatever the answer. */
  lemma SetupNeverRedirected(reply: Option<SetupStatus.Response>)
    ensures !Redirects(reply, SetupPath)
  {
  }

  /** A failed check redirects nowhere and still ends the loading state. */
  lemma FailedCheckStaysPut(pathname: string)
    ensures !Redirects(None, pathname)
  {
  }

  /** A reply without `setupCompleted`, such as the 405 body, counts as "not completed". */
  lemma MessageBodyRedirects(message: string, status: nat, pathname: string)
    requires pathname != SetupPath
    ensures Redirects(Some(SetupStatus.Response(status, SetupStatus.MessageBody(message))), pathname)
  {
  }

  /** A full mount: loading first, then at most one push, and the page shows afterwards. */
  method Mount(pathname: string, reply: Option<SetupStatus.Response>) returns (app: App, before: View)
    ensures fresh(app) && app.pathname == pathname
    ensures before == (if pathname == SetupPath then PageView else Loading)
    ensures app.Render() == PageView
    ensures app.pushed == (if Redirects(reply, pathname) then [SetupPath] else [])
  {
    app := new App(pathname);
    before := app.Render();
    app.CheckSetupStatus(reply);
  }
}
