/**
 * The users page: the list loaded from `/api/users`, search, the role
 * badge, and save and delete through the API, each followed by a refetch.
 */
module UsersPage {
  import opened Wrappers
  import opened Strings
  import opened Types
  import opened Lists
  import opened JsValues
  import opened Http

  // ---------------------------------------------------------------- search

  /** `u.department?.toLowerCase().includes(q)`: an absent field matches nothing. */
  predicate OptionalContains(s: Option<string>, query: string)
  {
    s.Some? && Contains(Lower(s.value), query)
  }

  predicate Matches(u: User, query: string)
  {
    Contains(Lower(u.name), query) || Contains(Lower(u.email), query)
    || OptionalContains(u.department, query) || OptionalContains(u.position, query)
    || OptionalContains(u.role, query)
  }

  /** `handleSearch`: one filter pass with the lowercased input; the input is not trimmed. */
  function Search(users: seq<User>, input: string): (r: seq<User>)
    ensures forall k | 0 <= k < |r| :: r[k] in users && Matches(r[k], Lower(input))
    ensures forall k | 0 <= k < |users| :: Matches(users[k], Lower(input)) ==> users[k] in r
  {
    Filter(users, u => Matches(u, Lower(input)))
  }

  /** The empty query is a substring of every name, so it keeps every user, in order. */
  lemma EmptyQueryKeepsAll(users: seq<User>)
    ensures Search(users, "") == users
  {
    forall k | 0 <= k < |users|
      ensures Matches(users[k], Lower(""))
    {
      ContainsEmpty(Lower(users[k].name));
    }
    FilterAll(users, u => Matches(u, Lower("")));
  }

  // ---------------------------------------------------------------- role badge

  const AdminBadge := "bg-red-100 text-red-800"
  const ManagerBadge := "bg-yellow-100 text-yellow-800"
  const UserBadge := "bg-blue-100 text-blue-800"

  function RoleBadgeClass(role: Option<string>): (c: string)
    ensures c == AdminBadge <==> role == Some("admin")
    ensures c == ManagerBadge <==> role == Some("manager")
    ensures c == UserBadge <==> role != Some("admin") && role != Some("manager")
  {
    match role
    case Some("admin") => AdminBadge
    case Some("manager") => ManagerBadge
    case _ => UserBadge
  }

  // ---------------------------------------------------------------- save and delete

  /** The partial user the form hands over: property name to value. */
  type UserData = map<string, JsValue>

  /** `{ ...userData, role: userData.role || "user" }`. */
  function SaveBody(data: UserData): (body: UserData)
    ensures body.Keys == data.Keys + {"role"}
    ensures Truthy(Get(data, "role")) ==> body["role"] == data["role"]
    ensures !Truthy(Get(data, "role")) ==> body["role"] == JStr("user")
    ensures forall k | k in data && k != "role" :: body[k] == data[k]
  {
    data["role" := if Truthy(Get(data, "role")) then data["role"] else JStr("user")]
  }

  /** The body always carries a truthy role, so sending it twice changes nothing more. */
  lemma SaveBodyIdempotent(data: UserData)
    ensures Truthy(SaveBody(data)["role"])
    ensures SaveBody(SaveBody(data)) == SaveBody(data)
  {
  }

  datatype Request = Request(httpMethod: HttpMethod, url: string, body: Option<UserData>)

  function SaveRequest(editing: Option<User>, data: UserData): (r: Request)
    ensures editing.Some? ==> r.httpMethod == PUT && r.url == "/api/users/" + IntToString(editing.value.id)
    ensures editing.None? ==> r.httpMethod == POST && r.url == "/api/users"
    ensures r.body == Some(SaveBody(data))
  {
    if editing.Some? then Request(PUT, "/api/users/" + IntToString(editing.value.id), Some(SaveBody(data)))
    else Request(POST, "/api/users", Some(SaveBody(data)))
  }

  /**
   * What a save's request gives: an OK response, a non-OK response whose
   * body parsed and has this `error` property, or a thrown error (the fetch,
   * or a body that does not parse) with its message.
   */
  datatype SaveOutcome = SaveOk | SaveRejected(error: JsValue) | SaveThrew(message: string)

  const DefaultSaveError := "Failed to save user."

  /** `String(v)`, the message `new Error(v)` carries. */
  function ErrorText(v: JsValue): string
  {
    match v
    case JUndefined => "undefined"
    case JNull => "null"
    case JBool(b) => if b then "true" else "false"
    case JNum(n) => IntToString(n)
    case JStr(s) => s
  }

  /** The message toasted after a save, if any. */
  function SaveError(outcome: SaveOutcome): (m: Option<string>)
    ensures m.None? <==> outcome.SaveOk?
    ensures outcome.SaveRejected? && !Truthy(outcome.error) ==> m == Some(DefaultSaveError)
    ensures outcome.SaveRejected? && outcome.error.JStr? && outcome.error.s != "" ==> m == Some(outcome.error.s)
    ensures outcome.SaveThrew? ==> m == Some(outcome.message)
  {
    match outcome
    case SaveOk => None
    case SaveRejected(e) => Some(if Truthy(e) then ErrorText(e) else DefaultSaveError)
    case SaveThrew(message) => Some(message)
  }

  /** A rejection is never silent: its message is the server's text or the fixed default, never empty. */
  lemma RejectionMessageNonEmpty(e: JsValue)
    ensures SaveError(SaveRejected(e)).value != ""
  {
  }

  // ---------------------------------------------------------------- the page state

  class Page {
    var users: seq<User>
    var filtered: seq<User>
    var searchQuery: string
    var modalOpen: bool
    var editing: Option<User>
    var deleteDialogOpen: bool
    var current: Option<User>
    /** How many list fetches (`fetchUsers`) have been issued. */
    var fetches: nat

    /** The first render; the mount effect issues the first fetch. */
    constructor()
      ensures users == [] && filtered == [] && searchQuery == "" && !modalOpen && editing.None?
      ensures !deleteDialogOpen && current.None? && fetches == 1
    {
      users := [];
      filtered := [];
      searchQuery := "";
      modalOpen := false;
      editing := None;
      deleteDialogOpen := false;
      current := None;
      fetches := 1;
    }

    /** A fetch answering: `None` stands for a thrown fetch or body, which keeps the list. */
    method Load(data: Option<seq<User>>)
      modifies this
      ensures data.Some? ==> users == data.value && filtered == data.value
      ensures data.None? ==> users == old(users) && filtered == old(filtered)
      ensures searchQuery == old(searchQuery) && modalOpen == old(modalOpen) && editing == old(editing)
      ensures deleteDialogOpen == old(deleteDialogOpen) && current == old(current) && fetches == old(fetches)
    {
      if data.Some? {
        users := data.value;
        filtered := data.value;
      }
    }

    method HandleSearch(input: string)
      modifies this
      ensures searchQuery == Lower(input) && filtered == Search(users, input)
      ensures users == old(users) && modalOpen == old(modalOpen) && editing == old(editing)
      ensures deleteDialogOpen == old(deleteDialogOpen) && current == old(current) && fetches == old(fetches)
    {
      searchQuery := Lower(input);
      filtered := Search(users, input);
    }

    method HandleAddUser()
      modifies this
      ensures editing.None? && modalOpen
      ensures users == old(users) && filtered == old(filtered) && searchQuery == old(searchQuery)
      ensures deleteDialogOpen == old(deleteDialogOpen) && current == old(current) && fetches == old(fetches)
    {
      editing := None;
      modalOpen := true;
    }

    method HandleEditUser(u: User)
      modifies this
      ensures editing == Some(u) && modalOpen
      ensures users == old(users) && filtered == old(filtered) && searchQuery == old(searchQuery)
      ensures deleteDialogOpen == old(deleteDialogOpen) && current == old(current) && fetches == old(fetches)
    {
      editing := Some(u);
      modalOpen := true;
    }

    /** The modal's `onClose`. */
    method CloseModal()
      modifies this
      ensures !modalOpen
      ensures users == old(users) && filtered == old(filtered) && searchQuery == old(searchQuery) && editing == old(editing)
      ensures deleteDialogOpen == old(deleteDialogOpen) && current == old(current) && fetches == old(fetches)
    {
      modalOpen := false;
    }

    method HandleDeleteUser(u: User)
      modifies this
      ensures current == Some(u) && deleteDialogOpen
      ensures users == old(users) && filtered == old(filtered) && searchQuery == old(searchQuery)
      ensures modalOpen == old(modalOpen) && editing == old(editing) && fetches == old(fetches)
    {
      current := Some(u);
      deleteDialogOpen := true;
    }

    /**
     * `confirmDelete`: unless the fetch throws, the dialog closes, the
     * selection clears and the list is fetched again; the status is not read.
     */
    method ConfirmDelete(outcome: FetchOutcome) returns (request: Option<Request>)
      modifies this
      ensures old(current).None? ==> request.None?
      ensures old(current).Some? ==> request == Some(Request(DELETE, "/api/users/" + IntToString(old(current).value.id), None))
      ensures old(current).Some? && outcome != Threw ==> !deleteDialogOpen && current.None? && fetches == old(fetches) + 1
      ensures old(current).None? || outcome == Threw ==>
        deleteDialogOpen == old(deleteDialogOpen) && current == old(current) && fetches == old(fetches)
      ensures users == old(users) && filtered == old(filtered) && searchQuery == old(searchQuery)
      ensures modalOpen == old(modalOpen) && editing == old(editing)
    {
      if current.None? {
        return None;
      }
      request := Some(Request(DELETE, "/api/users/" + IntToString(current.value.id), None));
      if outcome != Threw {
        deleteDialogOpen := false;
        current := None;
        fetches := fetches + 1;
      }
    }

    /** `handleSaveUser`: an OK answer closes the modal and refetches; anything else only reports. */
    method HandleSaveUser(data: UserData, outcome: SaveOutcome) returns (request: Request, error: Option<string>)
      modifies this
      ensures request == SaveRequest(editing, data) && error == SaveError(outcome)
      ensures outcome.SaveOk? ==> !modalOpen && fetches == old(fetches) + 1
      ensures !outcome.SaveOk? ==> modalOpen == old(modalOpen) && fetches == old(fetches)
      ensures users == old(users) && filtered == old(filtered) && searchQuery == old(searchQuery) && editing == old(editing)
      ensures deleteDialogOpen == old(deleteDialogOpen) && current == old(current)
    {
      request := SaveRequest(editing, data);
      error := SaveError(outcome);
      if outcome.SaveOk? {
        modalOpen := false;
        fetches := fetches + 1;
      }
    }
  }
}
