/**
 * The first-run wizard at `/setup`: four steps (admin account, database
 * connection, sample data, summary), two form validators guarding the way
 * forward, the eight import toggles, the connection test and the final
 * POST to `/api/setup/complete`.
 */
module SetupWizard {
  import opened Wrappers
  import opened Strings
  import opened JsValues
  import opened Http
  import opened Email
  import SetupComplete
  import TestDbConnection

  datatype AdminForm = AdminForm(name: string, email: string, password: string, confirmPassword: string)

  datatype DbForm = DbForm(host: string, port: string, database: string, username: string, password: string)

  const EmptyAdminForm := AdminForm("", "", "", "")
  const DefaultDbForm := DbForm("localhost", "5432", "it_asset_manager", "postgres", "")
  const AllDatasets := SetupComplete.ImportOptions(true, true, true, true, true, true, true, true)

  const TotalSteps := 4

  // ---------------------------------------------------------------- validators

  /** The email field is non-blank after trimming and matches the email pattern. */
  predicate EmailAccepted(email: string)
  {
    !IsBlank(email) && EmailLike(email)
  }

  /**
   * `validateAdminForm`: the toast of the first failing check, or `None`
   * when the form is valid.
   */
  function AdminFormError(f: AdminForm): (e: Option<string>)
    ensures e.None? <==> !IsBlank(f.name) && EmailAccepted(f.email) && |f.password| >= 8 && f.password == f.confirmPassword
  {
    if IsBlank(f.name) then Some("Admin name is required")
    else if !EmailAccepted(f.email) then Some("Valid email address is required")
    else if |f.password| < 8 then Some("Password must be at least 8 characters")
    else if f.password != f.confirmPassword then Some("Passwords do not match")
    else None
  }

  predicate ValidAdminForm(f: AdminForm)
  {
    AdminFormError(f).None?
  }

  /**
   * `validateDbForm`; `isNumber(s)` stands for `!isNaN(Number(s))`. The
   * password is not looked at.
   */
  function DbFormError(f: DbForm, isNumber: string -> bool): (e: Option<string>)
    ensures e.None? <==> !IsBlank(f.host) && !IsBlank(f.port) && isNumber(f.port) && !IsBlank(f.database) && !IsBlank(f.username)
  {
    if IsBlank(f.host) then Some("Database host is required")
    else if IsBlank(f.port) || !isNumber(f.port) then Some("Valid database port is required")
    else if IsBlank(f.database) then Some("Database name is required")
    else if IsBlank(f.username) then Some("Database username is required")
    else None
  }

  predicate ValidDbForm(f: DbForm, isNumber: string -> bool)
  {
    DbFormError(f, isNumber).None?
  }

  /** The checks run in order and the first failure is the one reported. */
  lemma FirstFailureReported(f: AdminForm)
    ensures IsBlank(f.name) ==> AdminFormError(f) == Some("Admin name is required")
    ensures !IsBlank(f.name) && !EmailAccepted(f.email) ==> AdminFormError(f) == Some("Valid email address is required")
    ensures !IsBlank(f.name) && EmailAccepted(f.email) && |f.password| < 8 ==>
      AdminFormError(f) == Some("Password must be at least 8 characters")
    ensures AdminFormError(f) == Some("Passwords do not match") <==>
      !IsBlank(f.name) && EmailAccepted(f.email) && |f.password| >= 8 && f.password != f.confirmPassword
  {
  }

  /** The password is measured as typed: eight spaces are long enough. */
  lemma PasswordNotTrimmed(f: AdminForm)
    requires !IsBlank(f.name) && EmailAccepted(f.email)
    requires f.password == "        " && f.confirmPassword == f.password
    ensures ValidAdminForm(f)
  {
  }

  /** Any database password, the empty one included, leaves the verdict unchanged. */
  lemma DbPasswordIgnored(f: DbForm, isNumber: string -> bool, password: string)
    ensures DbFormError(f.(password := password), isNumber) == DbFormError(f, isNumber)
  {
  }

  /** The defaults pass as soon as "5432" reads as a number. */
  lemma DefaultDbFormValid(isNumber: string -> bool)
    requires isNumber("5432")
    ensures ValidDbForm(DefaultDbForm, isNumber)
  {
    assert !IsWhitespace(DefaultDbForm.host[0]);
    assert !IsWhitespace(DefaultDbForm.port[0]);
    assert !IsWhitespace(DefaultDbForm.database[0]);
    assert !IsWhitespace(DefaultDbForm.username[0]);
  }

  /** The empty admin form is refused at its first check. */
  lemma EmptyAdminFormRefused()
    ensures AdminFormError(EmptyAdminForm) == Some("Admin name is required")
  {
  }

  // ---------------------------------------------------------------- the step machine

  /** Where `handleNext` leaves the wizard: a step forward when the current step's form is valid. */
  function NextStep(step: int, admin: AdminForm, db: DbForm, isNumber: string -> bool): int
  {
    if step == 1 && !ValidAdminForm(admin) then step
    else if step == 2 && !ValidDbForm(db, isNumber) then step
    else if step < TotalSteps then step + 1
    else step
  }

  /** The toast `handleNext` shows: the failing validator's message, if it ran and failed. */
  function NextToast(step: int, admin: AdminForm, db: DbForm, isNumber: string -> bool): Option<string>
  {
    if step == 1 then AdminFormError(admin)
    else if step == 2 then DbFormError(db, isNumber)
    else None
  }

  function BackStep(step: int): int
  {
    if step > 1 then step - 1 else step
  }

  /** Next and Back keep the step within 1..4 and move it by at most one. */
  lemma StepsStayInRange(step: int, admin: AdminForm, db: DbForm, isNumber: string -> bool)
    requires 1 <= step <= TotalSteps
    ensures 1 <= NextStep(step, admin, db, isNumber) <= TotalSteps
    ensures 1 <= BackStep(step) <= TotalSteps
    ensures NextStep(step, admin, db, isNumber) - step in {0, 1}
    ensures step - BackStep(step) in {0, 1}
  {
  }

  /** Leaving step 1 needs a valid admin form and leaving step 2 a valid database form; step 3 always advances. */
  lemma NextGuards(admin: AdminForm, db: DbForm, isNumber: string -> bool)
    ensures NextStep(1, admin, db, isNumber) == 2 <==> ValidAdminForm(admin)
    ensures NextStep(2, admin, db, isNumber) == 3 <==> ValidDbForm(db, isNumber)
    ensures NextStep(3, admin, db, isNumber) == 4
    ensures NextStep(4, admin, db, isNumber) == 4
  {
  }

  /** Only the current step's form is consulted, so step 2 does not re-check the admin form. */
  lemma OnlyCurrentFormChecked(admin: AdminForm, admin': AdminForm, db: DbForm, db': DbForm, isNumber: string -> bool)
    ensures NextStep(1, admin, db, isNumber) == NextStep(1, admin, db', isNumber)
    ensures NextStep(2, admin, db, isNumber) == NextStep(2, admin', db, isNumber)
    ensures NextStep(3, admin, db, isNumber) == NextStep(3, admin', db', isNumber)
  {
  }

  /** Back undoes a Next that moved: the wizard returns to the step it left. */
  lemma BackUndoesNext(step: int, admin: AdminForm, db: DbForm, isNumber: string -> bool)
    requires 1 <= step && NextStep(step, admin, db, isNumber) != step
    ensures BackStep(NextStep(step, admin, db, isNumber)) == step
  {
  }

  // ---------------------------------------------------------------- requests

  /** `JSON.stringify(dbForm)` as the connection test receives it. */
  function DbBody(f: DbForm): map<string, JsValue>
  {
    map["host" := JStr(f.host), "port" := JStr(f.port), "database" := JStr(f.database),
        "username" := JStr(f.username), "password" := JStr(f.password)]
  }

  /**
   * The body `handleFinish` posts, as the setup endpoint reads it. The
   * admin object also carries `confirmPassword`, which the endpoint never reads.
   */
  function FinishRequest(admin: AdminForm, db: DbForm, options: SetupComplete.ImportOptions): SetupComplete.SetupRequest
  {
    SetupComplete.SetupRequest(POST,
      Some(SetupComplete.AdminInput(Some(admin.name), Some(admin.email), Some(admin.password))),
      Some(SetupComplete.DatabaseConfig(Some(db.host), Some(db.port), Some(db.database), Some(db.username), Some(db.password))),
      Some(options))
  }

  /** A database form that passes its validator also passes the connection test's parameter check. */
  lemma ValidDbFormPassesTestCheck(f: DbForm, isNumber: string -> bool)
    requires ValidDbForm(f, isNumber)
    ensures TestDbConnection.ParametersGiven(DbBody(f))
  {
    assert IsBlank("");
  }

  /** Not every form that passes the parameter check passes the validator: a blank host is only truthy. */
  lemma BlankHostOnlyTruthy()
    ensures TestDbConnection.ParametersGiven(DbBody(DefaultDbForm.(host := " ")))
    ensures !ValidDbForm(DefaultDbForm.(host := " "), s => true)
  {
  }

  /** The finish request always gets past the setup endpoint's method and parameter checks. */
  lemma FinishRequestWellFormed(admin: AdminForm, db: DbForm, options: SetupComplete.ImportOptions)
    ensures var r := FinishRequest(admin, db, options);
      r.httpMethod == POST && r.admin.Some? && r.database.Some? && r.importOptions == Some(options)
      && r.admin.value.password == Some(admin.password)
  {
  }

  // ---------------------------------------------------------------- toggles

  /** A checkbox change: dataset `k` (in seeding order) gets `checked`. */
  function WithOption(o: SetupComplete.ImportOptions, k: nat, checked: bool): (r: SetupComplete.ImportOptions)
    requires k < 8
    ensures SetupComplete.Enabled(r, k) == checked
    ensures forall j | 0 <= j < 8 && j != k :: SetupComplete.Enabled(r, j) == SetupComplete.Enabled(o, j)
  {
    match k
    case 0 => o.(assets := checked)
    case 1 => o.(users := checked)
    case 2 => o.(components := checked)
    case 3 => o.(accessories := checked)
    case 4 => o.(licenses := checked)
    case 5 => o.(zabbixVms := checked)
    case 6 => o.(activityLogs := checked)
    case 7 => o.(bitlockerKeys := checked)
  }

  /** Every dataset starts selected. */
  lemma AllDatasetsSelected(k: nat)
    requires k < 8
    ensures SetupComplete.Enabled(AllDatasets, k)
  {
  }

  /** The field names of the admin form's inputs. */
  datatype AdminField = Name | EmailField | Password | ConfirmPassword

  function AdminValue(f: AdminForm, field: AdminField): string
  {
    match field
    case Name => f.name
    case EmailField => f.email
    case Password => f.password
    case ConfirmPassword => f.confirmPassword
  }

  /** `setAdminForm(prev => ({ ...prev, [name]: value }))`. */
  function WithAdminValue(f: AdminForm, field: AdminField, value: string): (r: AdminForm)
    ensures AdminValue(r, field) == value
    ensures forall g: AdminField | g != field :: AdminValue(r, g) == AdminValue(f, g)
  {
    match field
    case Name => f.(name := value)
    case EmailField => f.(email := value)
    case Password => f.(password := value)
    case ConfirmPassword => f.(confirmPassword := value)
  }

  datatype DbField = Host | Port | Database | Username | DbPassword

  function DbValue(f: DbForm, field: DbField): string
  {
    match field
    case Host => f.host
    case Port => f.port
    case Database => f.database
    case Username => f.username
    case DbPassword => f.password
  }

  function WithDbValue(f: DbForm, field: DbField, value: string): (r: DbForm)
    ensures DbValue(r, field) == value
    ensures forall g: DbField | g != field :: DbValue(r, g) == DbValue(f, g)
  {
    match field
    case Host => f.(host := value)
    case Port => f.(port := value)
    case Database => f.(database := value)
    case Username => f.(username := value)
    case DbPassword => f.(password := value)
  }

  // ---------------------------------------------------------------- the page state

  class Wizard {
    var currentStep: int
    var isLoading: bool
    var setupComplete: bool
    var adminForm: AdminForm
    var dbForm: DbForm
    var importOptions: SetupComplete.ImportOptions

    ghost predicate Valid()
      reads this
    {
      1 <= currentStep <= TotalSteps
    }

    constructor()
      ensures Valid() && currentStep == 1 && !isLoading && !setupComplete
      ensures adminForm == EmptyAdminForm && dbForm == DefaultDbForm && importOptions == AllDatasets
    {
      currentStep := 1;
      isLoading := false;
      setupComplete := false;
      adminForm := EmptyAdminForm;
      dbForm := DefaultDbForm;
      importOptions := AllDatasets;
    }

    /** `(currentStep / totalSteps) * 100`, which is exact for the four steps. */
    function Progress(): (p: int)
      reads this
      requires Valid()
      ensures p * TotalSteps == currentStep * 100
      ensures p in {25, 50, 75, 100}
    {
      currentStep * 25
    }

    method HandleAdminFormChange(field: AdminField, value: string)
      modifies this
      ensures adminForm == WithAdminValue(old(adminForm), field, value)
      ensures currentStep == old(currentStep) && dbForm == old(dbForm) && importOptions == old(importOptions)
      ensures isLoading == old(isLoading) && setupComplete == old(setupComplete)
    {
      adminForm := WithAdminValue(adminForm, field, value);
    }

    method HandleDbFormChange(field: DbField, value: string)
      modifies this
      ensures dbForm == WithDbValue(old(dbForm), field, value)
      ensures currentStep == old(currentStep) && adminForm == old(adminForm) && importOptions == old(importOptions)
      ensures isLoading == old(isLoading) && setupComplete == old(setupComplete)
    {
      dbForm := WithDbValue(dbForm, field, value);
    }

    method HandleImportOptionChange(k: nat, checked: bool)
      requires k < 8
      modifies this
      ensures importOptions == WithOption(old(importOptions), k, checked)
      ensures currentStep == old(currentStep) && adminForm == old(adminForm) && dbForm == old(dbForm)
      ensures isLoading == old(isLoading) && setupComplete == old(setupComplete)
    {
      importOptions := WithOption(importOptions, k, checked);
    }

    /** `handleNext`; the result is the error toast shown, if any. */
    method HandleNext(isNumber: string -> bool) returns (toast: Option<string>)
      requires Valid()
      modifies this
      ensures Valid()
      ensures currentStep == NextStep(old(currentStep), adminForm, dbForm, isNumber)
      ensures toast == NextToast(old(currentStep), adminForm, dbForm, isNumber)
      ensures toast.Some? ==> currentStep == old(currentStep)
      ensures adminForm == old(adminForm) && dbForm == old(dbForm) && importOptions == old(importOptions)
      ensures isLoading == old(isLoading) && setupComplete == old(setupComplete)
    {
      toast := None;
      if currentStep == 1 {
        toast := AdminFormError(adminForm);
        if toast.Some? {
          return;
        }
      }
      if currentStep == 2 {
        toast := DbFormError(dbForm, isNumber);
        if toast.Some? {
          return;
        }
      }
      if currentStep < TotalSteps {
        currentStep := currentStep + 1;
      }
    }

    method HandleBack()
      requires Valid()
      modifies this
      ensures Valid() && currentStep == BackStep(old(currentStep))
      ensures adminForm == old(adminForm) && dbForm == old(dbForm) && importOptions == old(importOptions)
      ensures isLoading == old(isLoading) && setupComplete == old(setupComplete)
    {
      if currentStep > 1 {
        currentStep := currentStep - 1;
      }
    }

    /**
     * `handleTestConnection`: posts the database form and reports the
     * outcome in a toast only; nothing the wizard keeps depends on it.
     */
    method HandleTestConnection(outcome: FetchOutcome) returns (body: map<string, JsValue>, succeeded: bool)
      modifies this
      ensures body == DbBody(dbForm) && (succeeded <==> outcome == Ok)
      ensures !isLoading
      ensures currentStep == old(currentStep) && adminForm == old(adminForm) && dbForm == old(dbForm)
      ensures importOptions == old(importOptions) && setupComplete == old(setupComplete)
    {
      isLoading := true;
      body := DbBody(dbForm);
      succeeded := outcome == Ok;
      isLoading := false;
    }

    /** `handleFinish`: posts everything; only an OK response marks the setup complete. */
    method HandleFinish(outcome: FetchOutcome) returns (request: SetupComplete.SetupRequest)
      modifies this
      ensures request == FinishRequest(adminForm, dbForm, importOptions)
      ensures setupComplete == (old(setupComplete) || outcome == Ok)
      ensures !isLoading
      ensures currentStep == old(currentStep) && adminForm == old(adminForm) && dbForm == old(dbForm)
      ensures importOptions == old(importOptions)
    {
      isLoading := true;
      request := FinishRequest(adminForm, dbForm, importOptions);
      if outcome == Ok {
        setupComplete := true;
      }
      isLoading := false;
    }
  }
}
