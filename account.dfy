/**
 * The account editing form: its heading, how a change event updates the
 * account, and the request that saves it.
 */
module Account {
  import opened Text
  import opened Values
  import opened Forms
  import Validation
  import FrontRequests
  import Users

  const FirstAdminTitle := "Add First Admin Account"
  const NewAccountTitle := "Adding New Login Account"
  const EditingFor := "Editing Account For "
  const EditingTitle := "Editing Login Account"

  /** `(account[key] ?? '').trim()`. */
  function TrimmedField(account: Record, key: string): string {
    JsTrim(TextValue(Get(account, key)))
  }

  /**
   * makeTitle() as written: with no signed-in user id the first
   * administrator is being created; an account without an id is new; an
   * existing one is named by its full name. When only the login name is
   * set, the title still interpolates the empty full name.
   */
  function MakeTitle(userId: Value, account: Record): (title: string)
    ensures !JsTruthy(userId) ==> title == FirstAdminTitle
    ensures JsTruthy(userId) && !JsTruthy(Get(account, "account_id")) ==> title == NewAccountTitle
    ensures JsTruthy(userId) && JsTruthy(Get(account, "account_id")) ==>
      title == if TrimmedField(account, "account_fullname") != "" then EditingFor + TrimmedField(account, "account_fullname")
               else if TrimmedField(account, "account_name") != "" then EditingFor
               else EditingTitle
  {
    if !JsTruthy(userId) then FirstAdminTitle
    else if !JsTruthy(Coalesce(Get(account, "account_id"), Null)) then NewAccountTitle
    else
      var fullname := TrimmedField(account, "account_fullname");
      if fullname != "" then EditingFor + fullname
      else
        var name := TrimmedField(account, "account_name");
        if name != "" then EditingFor + fullname
        else EditingTitle
  }

  /** The title the login-name branch evidently means: the account named by its login name. */
  function IntendedTitle(userId: Value, account: Record): (title: string)
    ensures !JsTruthy(userId) ==> title == FirstAdminTitle
    ensures JsTruthy(userId) && !JsTruthy(Get(account, "account_id")) ==> title == NewAccountTitle
  {
    if !JsTruthy(userId) then FirstAdminTitle
    else if !JsTruthy(Get(account, "account_id")) then NewAccountTitle
    else
      var fullname := TrimmedField(account, "account_fullname");
      var name := TrimmedField(account, "account_name");
      if fullname != "" then EditingFor + fullname
      else if name != "" then EditingFor + name
      else EditingTitle
  }

  /**
   * The intended title of an existing account names it by its full name,
   * or else by its login name, and never ends in an empty name.
   */
  lemma IntendedTitleNamesAccount(userId: Value, account: Record)
    requires JsTruthy(userId) && JsTruthy(Get(account, "account_id"))
    ensures var title := IntendedTitle(userId, account);
      var fullname := TrimmedField(account, "account_fullname");
      var name := TrimmedField(account, "account_name");
      (fullname != "" || name != "" <==> StartsWith(title, EditingFor) && |title| > |EditingFor|)
      && (fullname != "" ==> title[|EditingFor|..] == fullname)
      && (fullname == "" && name != "" ==> title[|EditingFor|..] == name)
  {
    var title := IntendedTitle(userId, account);
    if TrimmedField(account, "account_fullname") == "" && TrimmedField(account, "account_name") == "" {
      assert title == EditingTitle;
      assert !StartsWith(title, EditingFor) by {
        assert title[8] != EditingFor[8];
      }
    }
  }

  /**
   * The two titles differ exactly for an existing account that has a
   * login name and no full name: there the title as written names nobody.
   */
  lemma TitlesDifferOnlyWithoutFullName(userId: Value, account: Record)
    ensures MakeTitle(userId, account) != IntendedTitle(userId, account) <==>
      JsTruthy(userId) && JsTruthy(Get(account, "account_id"))
      && TrimmedField(account, "account_fullname") == "" && TrimmedField(account, "account_name") != ""
    ensures MakeTitle(userId, account) != IntendedTitle(userId, account) ==> MakeTitle(userId, account) == EditingFor
  {
    if JsTruthy(userId) && JsTruthy(Get(account, "account_id"))
      && TrimmedField(account, "account_fullname") == "" && TrimmedField(account, "account_name") != ""
    {
      var name := TrimmedField(account, "account_name");
      assert IntendedTitle(userId, account) == EditingFor + name;
      assert |EditingFor + name| > |EditingFor|;
    }
  }

  /**
   * An existing account with a login name and an empty full name: the
   * heading as written names nobody, the intended one names the login.
   */
  lemma LoginNameOnlyTitle(userId: Value, account: Record, name: string)
    requires JsTruthy(userId) && JsTruthy(Get(account, "account_id"))
    requires TrimmedField(account, "account_fullname") == "" && TrimmedField(account, "account_name") == name != ""
    ensures MakeTitle(userId, account) == EditingFor
    ensures IntendedTitle(userId, account) == EditingFor + name
  {
  }

  /** The parts of `e.target` that handleChange() reads. */
  datatype ChangeEvent = ChangeEvent(name: string, value: Value, isCheckbox: bool, checked: bool)

  /** handleChange(): a checkbox stores its checked state as a boolean, any other control its value. */
  function HandleChange(account: Record, e: ChangeEvent): (r: Record)
    ensures r.Keys == account.Keys + {e.name}
    ensures e.isCheckbox ==> r[e.name] == Bool(e.checked)
    ensures !e.isCheckbox ==> r[e.name] == e.value
    ensures forall key :: key in account && key != e.name ==> r[key] == account[key]
  {
    account[e.name := if e.isCheckbox then Bool(e.checked) else e.value]
  }

  /**
   * The flag checkboxes store booleans, which the API's post() reads as
   * they were ticked: administrator exactly when ticked, read-only
   * exactly when ticked.
   */
  lemma CheckboxFlagsStored(account: Record, admin: bool, readonly: bool, hash: Value -> Value)
    ensures var a := HandleChange(account, ChangeEvent("account_admin", Null, true, admin));
      var b := HandleChange(a, ChangeEvent("account_readonly", Null, true, readonly));
      var values := Users.PostValues(b, hash);
      (values[4] == Int(1) <==> admin) && (values[5] == Int(1) <==> readonly)
  {
    var a := HandleChange(account, ChangeEvent("account_admin", Null, true, admin));
    var b := HandleChange(a, ChangeEvent("account_readonly", Null, true, readonly));
    assert Get(b, "account_admin") == Bool(admin);
    assert Get(b, "account_readonly") == Bool(readonly);
  }

  /**
   * handleSave(): no request when the form has validation errors; PUT to
   * the account's own URI when it has an id, POST otherwise.
   */
  function HandleSave(fields: seq<FormField>, account: Record, patterns: Validation.Patterns, debugging: bool)
    : (r: Option<FrontRequests.SaveRequest>)
    ensures r.Some? <==> Validation.FormErrors(fields, account, [], patterns) == map[]
    ensures r.Some? ==> (r.value.verb == FrontRequests.Put <==> JsTruthy(Get(account, "account_id")))
    ensures r.Some? ==> StartsWith(r.value.uri, FrontRequests.ApiRoot + "account")
  {
    if Validation.FormErrors(fields, account, [], patterns) == map[]
    then Some(FrontRequests.SaveRequestFor("account", Get(account, "account_id"), debugging))
    else None
  }
}
