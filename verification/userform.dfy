/**
 * The editor's add/edit user form: the form state, its change handlers, and the request
 * a submit sends to the user API. On edit only the editable fields go out, and the
 * password with its connection only when a new password was typed.
 */
module UserForm {
  import opened Results
  import opened Dicts
  import opened JsValues

  /** The metadata object the role radio buttons write: a list holding one role. */
  function RolesMetadata(role: string): JsValue {
    Obj([Entry("roles", Arr([Str(role)]))])
  }

  /** The form a new user starts from: no name, email or password, not blocked, read-only. */
  const DefaultFormData: Dict<JsValue> := [
    Entry("name", Str("")),
    Entry("email", Str("")),
    Entry("password", Str("")),
    Entry("blocked", Bool(false)),
    Entry("connection", Str("Username-Password-Authentication")),
    Entry("verify_email", Bool(true)),
    Entry("app_metadata", RolesMetadata("readOnly"))
  ]

  /** `userFormData[field]`: a field the object lacks reads `undefined`. */
  function Lookup(form: Dict<JsValue>, field: string): JsValue {
    Get(form, field).GetOr(Undefined)
  }

  /** `userFormData.password !== ""`: anything but the empty string, `undefined` included. */
  predicate PasswordReset(form: Dict<JsValue>) {
    Lookup(form, "password") != Str("")
  }

  /** `editFields` once the pushes have run. */
  function EditFields(form: Dict<JsValue>): seq<string> {
    ["name", "email", "app_metadata"] + (if PasswordReset(form) then ["password", "connection"] else [])
  }

  /** `fields.reduce((acc, field) => ({ ...acc, [field]: form[field] }), {})`. */
  function Pick(form: Dict<JsValue>, fields: seq<string>): Dict<JsValue> {
    if fields == [] then []
    else Set(Pick(form, fields[..|fields| - 1]), fields[|fields| - 1], Lookup(form, fields[|fields| - 1]))
  }

  /** `cleanFormDataForEdit`. */
  function CleanFormDataForEdit(form: Dict<JsValue>): Dict<JsValue> {
    Pick(form, EditFields(form))
  }

  /** Picking distinct fields gives an object with exactly those keys, in that order, each copied from the form. */
  lemma {:induction false} PickSpec(form: Dict<JsValue>, fields: seq<string>)
    requires forall i, j :: 0 <= i < j < |fields| ==> fields[i] != fields[j]
    ensures Keys(Pick(form, fields)) == fields
    ensures UniqueKeys(Pick(form, fields))
    ensures forall f :: f in fields ==> Get(Pick(form, fields), f) == Some(Lookup(form, f))
  {
    if fields != [] {
      var front := fields[..|fields| - 1];
      var last := fields[|fields| - 1];
      PickSpec(form, front);
      var acc := Pick(form, front);
      assert last !in front;
      SetNewKey(acc, last, Lookup(form, last));
      SetKeepsUnique(acc, last, Lookup(form, last));
      assert fields == front + [last];
      forall f | f in fields
        ensures Get(Pick(form, fields), f) == Some(Lookup(form, f))
      {
        SetGet(acc, last, Lookup(form, last), f);
      }
    }
  }

  /**
   * The edit payload holds name, email and app_metadata, then password and connection
   * exactly when the password is not the empty string; every value is the form's own.
   */
  lemma CleanFormDataForEditSpec(form: Dict<JsValue>)
    ensures Keys(CleanFormDataForEdit(form)) ==
      if PasswordReset(form) then ["name", "email", "app_metadata", "password", "connection"]
      else ["name", "email", "app_metadata"]
    ensures UniqueKeys(CleanFormDataForEdit(form))
    ensures forall f :: f in Keys(CleanFormDataForEdit(form)) ==> Get(CleanFormDataForEdit(form), f) == Some(Lookup(form, f))
  {
    PickSpec(form, EditFields(form));
  }

  /**
   * A form loaded without a password field still gets a `password` key, holding
   * `undefined`, and its connection in the cleaned object. (Serialised as the JSON
   * request body, the `undefined` member is dropped and only the connection goes out.)
   */
  lemma MissingPasswordIsSent(form: Dict<JsValue>)
    requires "password" !in Keys(form)
    ensures "password" in Keys(CleanFormDataForEdit(form)) && "connection" in Keys(CleanFormDataForEdit(form))
    ensures Get(CleanFormDataForEdit(form), "password") == Some(Undefined)
  {
    GetSpec(form, "password");
    CleanFormDataForEditSpec(form);
  }

  /** The default form, edited as it stands, sends no password. */
  lemma DefaultEditPayload()
    ensures CleanFormDataForEdit(DefaultFormData) ==
      [Entry("name", Str("")), Entry("email", Str("")), Entry("app_metadata", RolesMetadata("readOnly"))]
  {
    var form := DefaultFormData;
    var fields := ["name", "email", "app_metadata"];
    assert Lookup(form, "password") == Str("");
    assert EditFields(form) == fields;
    assert fields[..2] == ["name", "email"] && fields[..2][..1] == ["name"] && fields[..2][..1][..0] == [];
    var one := [Entry("name", Lookup(form, "name"))];
    assert Pick(form, ["name"]) == one;
    var two := one + [Entry("email", Lookup(form, "email"))];
    SetNewKey(one, "email", Lookup(form, "email"));
    assert Pick(form, ["name", "email"]) == two;
    SetNewKey(two, "app_metadata", Lookup(form, "app_metadata"));
    assert Lookup(form, "name") == Str("") && Lookup(form, "email") == Str("");
    assert Lookup(form, "app_metadata") == RolesMetadata("readOnly");
  }

  /** The role the radio buttons show as checked: the first of `app_metadata.roles`. */
  function CheckedRole(form: Dict<JsValue>): Option<JsValue> {
    match Lookup(form, "app_metadata")
    case Obj(metadata) =>
      var roles := Get(metadata, "roles");
      if roles.Some? && roles.value.Arr? && roles.value.items != [] then Some(roles.value.items[0]) else None
    case _ => None
  }

  /** A text change sets the field named by the input's id and no other. */
  lemma TextChangeSetsOneField(form: Dict<JsValue>, id: string, value: string, other: string)
    requires UniqueKeys(form)
    ensures Get(Set(form, id, Str(value)), id) == Some(Str(value))
    ensures other != id ==> Get(Set(form, id, Str(value)), other) == Get(form, other)
    ensures UniqueKeys(Set(form, id, Str(value)))
    ensures id in Keys(form) ==> Keys(Set(form, id, Str(value))) == Keys(form)
  {
    SetGet(form, id, Str(value), id);
    SetGet(form, id, Str(value), other);
    SetKeepsUnique(form, id, Str(value));
  }

  /** A role change leaves exactly one role, the chosen one, checked, and touches no other field. */
  lemma RoleChangeSingleRole(form: Dict<JsValue>, role: string, other: string)
    ensures Lookup(Set(form, "app_metadata", RolesMetadata(role)), "app_metadata") == Obj([Entry("roles", Arr([Str(role)]))])
    ensures CheckedRole(Set(form, "app_metadata", RolesMetadata(role))) == Some(Str(role))
    ensures other != "app_metadata" ==> Get(Set(form, "app_metadata", RolesMetadata(role)), other) == Get(form, other)
  {
    SetGet(form, "app_metadata", RolesMetadata(role), "app_metadata");
    SetGet(form, "app_metadata", RolesMetadata(role), other);
  }

  /** The request a submit sends: a PUT of the cleaned fields, or a POST of the whole form. */
  datatype Request = Put(url: string, body: Dict<JsValue>) | Post(url: string, body: Dict<JsValue>)

  /** The component's state. `id` is the user being edited (`null` when adding). */
  class UserFormState {
    const formType: string
    const id: JsValue
    var userFormData: Dict<JsValue>
    var isFormDataLoaded: bool

    constructor(formType: string, id: JsValue)
      ensures this.formType == formType && this.id == id
      ensures userFormData == DefaultFormData && !isFormDataLoaded
    {
      this.formType := formType;
      this.id := id;
      userFormData := DefaultFormData;
      isFormDataLoaded := false;
    }

    /** The fetch on mount: when editing, the user the API returns becomes the form. */
    method LoadUser(data: Dict<JsValue>)
      modifies this
      ensures formType == "Edit" ==> userFormData == data && isFormDataLoaded
      ensures formType != "Edit" ==> userFormData == old(userFormData) && isFormDataLoaded == old(isFormDataLoaded)
    {
      if formType == "Edit" {
        userFormData := data;
        isFormDataLoaded := true;
      }
    }

    /** `handleTextInputChange`. */
    method HandleTextInputChange(inputId: string, value: string)
      modifies this
      ensures userFormData == Set(old(userFormData), inputId, Str(value))
      ensures isFormDataLoaded == old(isFormDataLoaded)
    {
      userFormData := Set(userFormData, inputId, Str(value));
    }

    /** `handleRoleRadioInputChange`. */
    method HandleRoleRadioInputChange(value: string)
      modifies this
      ensures userFormData == Set(old(userFormData), "app_metadata", RolesMetadata(value))
      ensures isFormDataLoaded == old(isFormDataLoaded)
    {
      userFormData := Set(userFormData, "app_metadata", RolesMetadata(value));
    }

    /** `resetForm`. */
    method ResetForm()
      modifies this
      ensures userFormData == DefaultFormData
      ensures isFormDataLoaded == old(isFormDataLoaded)
    {
      userFormData := DefaultFormData;
    }

    /**
     * `handleFormSubmit`: an edit sends the cleaned fields to the update endpoint, an add
     * sends the whole form to the create endpoint, any other form type sends nothing.
     */
    method HandleFormSubmit(apiDomain: string) returns (request: Option<Request>)
      ensures formType == "Edit" ==>
        request == Some(Put(apiDomain + "/user/update_user/" + ToText(id), CleanFormDataForEdit(userFormData)))
      ensures formType == "Add" ==> request == Some(Post(apiDomain + "/user/create_user", userFormData))
      ensures request.None? <==> formType != "Edit" && formType != "Add"
    {
      if formType == "Edit" {
        var updatedFormData := CleanFormDataForEdit(userFormData);
        return Some(Put(apiDomain + "/user/update_user/" + ToText(id), updatedFormData));
      } else if formType == "Add" {
        return Some(Post(apiDomain + "/user/create_user", userFormData));
      }
      return None;
    }
  }
}
