/**
 * The add/edit user dialog: the form reset on opening, the per-field
 * error map and its validation, and the submit that hands the form to the
 * page. Form values are JSON values; a text field holds a string.
 */
module UserFormModal {
  import opened Wrappers
  import opened Strings
  import opened Types
  import opened JsValues
  import Email

  /** A partial user: property name to value. */
  type Form = map<string, JsValue>

  /** The blank dialog: empty texts, active, not an administrator, role "user". */
  function DefaultForm(): (f: Form)
    ensures forall k | k in ["name", "email", "department", "position", "phone", "location"] :: k in f && f[k] == JStr("")
    ensures "isActive" in f && f["isActive"] == JBool(true) && "isAdmin" in f && f["isAdmin"] == JBool(false)
    ensures "role" in f && f["role"] == JStr("user")
    ensures f.Keys == {"name", "email", "department", "position", "phone", "location", "isActive", "isAdmin", "role"}
  {
    map["name" := JStr(""), "email" := JStr(""), "department" := JStr(""), "position" := JStr(""),
        "phone" := JStr(""), "location" := JStr(""), "isActive" := JBool(true), "isAdmin" := JBool(false),
        "role" := JStr("user")]
  }

  function OptionalText(s: Option<string>): (v: JsValue)
    ensures s.None? ==> v == JUndefined
    ensures s.Some? ==> v == JStr(s.value)
  {
    if s.Some? then JStr(s.value) else JUndefined
  }

  function OptionalFlag(b: Option<bool>): (v: JsValue)
    ensures b.None? ==> v == JUndefined
    ensures b.Some? ==> v == JBool(b.value)
  {
    if b.Some? then JBool(b.value) else JUndefined
  }

  /** The user being edited as an object; absent optionals read as undefined. */
  function UserForm(u: User): Form
  {
    map["id" := JNum(u.id), "name" := JStr(u.name), "email" := JStr(u.email), "role" := OptionalText(u.role),
        "department" := OptionalText(u.department), "position" := OptionalText(u.position),
        "phone" := OptionalText(u.phone), "location" := OptionalText(u.location),
        "isActive" := OptionalFlag(u.isActive), "isAdmin" := OptionalFlag(u.isAdmin),
        "lastLogin" := OptionalText(u.lastLogin), "createdAt" := OptionalText(u.createdAt),
        "updatedAt" := OptionalText(u.updatedAt)]
  }

  /** `user ?? { ...defaults }`. */
  function OpenForm(user: Option<User>): Form
  {
    if user.Some? then UserForm(user.value) else DefaultForm()
  }

  // ---------------------------------------------------------------- validation

  const NameRequired := "Name is required"
  const EmailRequired := "Email is required"
  const EmailInvalid := "Invalid email format"
  const RoleRequired := "Role is required"

  /** `!value?.trim()`: the property is absent, not text, or blank text. */
  predicate BlankText(v: JsValue)
  {
    !(v.JStr? && !IsBlank(v.s))
  }

  /** The error map `validateForm` builds from a form. */
  function Errors(f: Form): (e: map<string, string>)
    ensures e.Keys <= {"name", "email", "role"}
    ensures "name" in e <==> BlankText(Get(f, "name"))
    ensures "name" in e ==> e["name"] == NameRequired
    ensures "email" in e <==> BlankText(Get(f, "email")) || !Email.EmailLike(Get(f, "email").s)
    ensures "email" in e && BlankText(Get(f, "email")) ==> e["email"] == EmailRequired
    ensures "email" in e && !BlankText(Get(f, "email")) ==> e["email"] == EmailInvalid
    ensures "role" in e <==> !Truthy(Get(f, "role"))
    ensures "role" in e ==> e["role"] == RoleRequired
  {
    var name: map<string, string> := if BlankText(Get(f, "name")) then map["name" := NameRequired] else map[];
    var email: map<string, string> :=
      if BlankText(Get(f, "email")) then name["email" := EmailRequired]
      else if !Email.EmailLike(Get(f, "email").s) then name["email" := EmailInvalid]
      else name;
    if !Truthy(Get(f, "role")) then email["role" := RoleRequired] else email
  }

  /** The form is valid exactly when name and email are filled in, the email has the pattern's shape, and a role is set. */
  lemma ValidIff(f: Form)
    ensures Errors(f) == map[] <==>
      Get(f, "name").JStr? && !IsBlank(Get(f, "name").s)
      && Get(f, "email").JStr? && !IsBlank(Get(f, "email").s) && Email.EmailLike(Get(f, "email").s)
      && Truthy(Get(f, "role"))
  {
    if Errors(f) == map[] {
      assert "name" !in Errors(f) && "email" !in Errors(f) && "role" !in Errors(f);
    }
  }

  /** The blank dialog reports exactly the two missing texts; its role is already set. */
  lemma DefaultFormErrors()
    ensures Errors(DefaultForm()) == map["name" := NameRequired, "email" := EmailRequired]
  {
    var e := Errors(DefaultForm());
    assert BlankText(Get(DefaultForm(), "name")) && BlankText(Get(DefaultForm(), "email"));
    assert Truthy(Get(DefaultForm(), "role"));
    assert e.Keys == {"name", "email"};
  }

  /** A user without a role opens as an invalid form: the role must be chosen before saving. */
  lemma RolelessUserRefused(u: User)
    requires u.role.None?
    ensures "role" in Errors(UserForm(u))
  {
  }

  /** The email is tested untrimmed, but the pattern finds a match inside surrounding spaces. */
  lemma PaddedEmailAccepted(f: Form)
    requires Get(f, "email") == JStr(" user@example.com ")
    ensures "email" !in Errors(f)
  {
    var s := " user@example.com ";
    assert !IsWhitespace(s[1]);
    assert Email.Shape(s, 5, 13);
  }

  // ---------------------------------------------------------------- the dialog state

  class Modal {
    var formData: Form
    var errors: map<string, string>

    constructor()
      ensures formData == map[] && errors == map[]
    {
      formData := map[];
      errors := map[];
    }

    /** The effect run when the dialog opens (or its user changes while open). */
    method Open(isOpen: bool, user: Option<User>)
      modifies this
      ensures isOpen ==> formData == OpenForm(user) && errors == map[]
      ensures !isOpen ==> formData == old(formData) && errors == old(errors)
    {
      if isOpen {
        formData := OpenForm(user);
        errors := map[];
      }
    }

    /** `handleChange`: the field takes the text; that field's error, if shown, is blanked, and no other. */
    method HandleChange(name: string, value: string)
      modifies this
      ensures formData == old(formData)[name := JStr(value)]
      ensures name in old(errors) && old(errors)[name] != "" ==> errors == old(errors)[name := ""]
      ensures !(name in old(errors) && old(errors)[name] != "") ==> errors == old(errors)
      ensures forall k | k in old(errors) && k != name :: k in errors && errors[k] == old(errors)[k]
    {
      formData := formData[name := JStr(value)];
      if name in errors && errors[name] != "" {
        errors := errors[name := ""];
      }
    }

    /** `handleSwitchChange`: only the named flag changes. */
    method HandleSwitchChange(checked: bool, name: string)
      modifies this
      ensures formData == old(formData)[name := JBool(checked)] && errors == old(errors)
    {
      formData := formData[name := JBool(checked)];
    }

    /** `handleSelectChange`: the role select. */
    method HandleSelectChange(value: string)
      modifies this
      ensures formData == old(formData)["role" := JStr(value)] && errors == old(errors)
    {
      formData := formData["role" := JStr(value)];
    }

    /** `validateForm`: the error map is rebuilt field by field, and the form is valid iff it stays empty. */
    method ValidateForm() returns (valid: bool)
      modifies this
      ensures errors == Errors(formData) && formData == old(formData)
      ensures valid <==> errors == map[]
    {
      var newErrors: map<string, string> := map[];
      var name := Get(formData, "name");
      if BlankText(name) {
        newErrors := newErrors["name" := NameRequired];
      }
      var email := Get(formData, "email");
      if BlankText(email) {
        newErrors := newErrors["email" := EmailRequired];
      } else if !Email.EmailLike(email.s) {
        newErrors := newErrors["email" := EmailInvalid];
      }
      if !Truthy(Get(formData, "role")) {
        newErrors := newErrors["role" := RoleRequired];
      }
      errors := newErrors;
      valid := |newErrors| == 0;
    }

    /**
     * `handleSubmit`: a valid form goes to `onSave` and the dialog asks to
     * close at once, before the save's answer is known; an invalid one
     * goes nowhere and the dialog stays.
     */
    method HandleSubmit() returns (saved: Option<Form>, closeRequested: bool)
      modifies this
      ensures errors == Errors(formData) && formData == old(formData)
      ensures saved.Some? <==> errors == map[]
      ensures saved.Some? ==> saved.value == formData
      ensures closeRequested <==> saved.Some?
    {
      var valid := ValidateForm();
      if valid {
        saved := Some(formData);
        closeRequested := true;
      } else {
        saved := None;
        closeRequested := false;
      }
    }
  }
}
