/**
 * The login account handler: the value lists bound to the INSERT and
 * UPDATE statements of an account, with the administrator and read-only
 * flags stored as 1 or 0.
 */
module Users {
  import opened Values

  /** `$data[$key] ?? null`. */
  function Field(data: Record, key: string): Value {
    Coalesce(Get(data, key), Null)
  }

  /** A flag stored as an integer. */
  function Flag(b: bool): Value { if b then Int(1) else Int(0) }

  /**
   * post(): name, full name, password, comment, administrator flag,
   * read-only flag, status and password hash. Only the exact `true` makes
   * an administrator and only the exact `false` makes a writable account;
   * a hash is stored exactly when the password is truthy. `hash` stands
   * for password_hash().
   */
  function PostValues(data: Record, hash: Value -> Value): (values: seq<Value>)
    ensures |values| == 8
    ensures values[0] == Field(data, "account_name") && values[1] == Field(data, "account_fullname")
    ensures values[2] == Field(data, "account_password") && values[3] == Field(data, "account_comment")
    ensures values[4] == Int(1) <==> Get(data, "account_admin") == Bool(true)
    ensures values[5] == Int(0) <==> Get(data, "account_readonly") == Bool(false)
    ensures values[4] in {Int(0), Int(1)} && values[5] in {Int(0), Int(1)}
    ensures values[6] == Field(data, "account_status")
    ensures PhpTruthy(Field(data, "account_password")) ==> values[7] == hash(Field(data, "account_password"))
    ensures !PhpTruthy(Field(data, "account_password")) ==> values[7] == Null
  {
    var password := Field(data, "account_password");
    [Field(data, "account_name"),
     Field(data, "account_fullname"),
     password,
     Field(data, "account_comment"),
     Flag(Get(data, "account_admin") == Bool(true)),
     Flag(Get(data, "account_readonly") != Bool(false)),
     Field(data, "account_status"),
     if PhpTruthy(password) then hash(password) else Null]
  }

  /**
   * put(): the same seven account fields, with both flags taken by
   * truthiness, and the record id last for the WHERE clause. A falsy
   * record id stops the request.
   */
  function PutValues(data: Record, recordId: Value): (r: Result<seq<Value>>)
    ensures r.Err? <==> !PhpTruthy(recordId)
    ensures r.Err? ==> r.error == "Missing record ID"
    ensures r.Ok? ==>
      var values := r.value;
      |values| == 8 && values[7] == recordId
      && values[..4] == [Field(data, "account_name"), Field(data, "account_fullname"),
                         Field(data, "account_password"), Field(data, "account_comment")]
      && (values[4] == Int(1) <==> PhpTruthy(Get(data, "account_admin")))
      && (values[5] == Int(1) <==> PhpTruthy(Get(data, "account_readonly")))
      && values[6] == Field(data, "account_status")
  {
    if !PhpTruthy(recordId) then Err("Missing record ID")
    else
      Ok([Field(data, "account_name"),
          Field(data, "account_fullname"),
          Field(data, "account_password"),
          Field(data, "account_comment"),
          Flag(PhpTruthy(Get(data, "account_admin"))),
          Flag(PhpTruthy(Get(data, "account_readonly"))),
          Field(data, "account_status"),
          recordId])
  }

  /**
   * The two handlers store the same flags for JSON booleans, and the same
   * account fields; a new account without flags is read-only and not an
   * administrator.
   */
  lemma PostPutAgreeOnBooleans(data: Record, hash: Value -> Value, recordId: Value)
    requires PhpTruthy(recordId)
    requires Get(data, "account_admin").Bool? && Get(data, "account_readonly").Bool?
    ensures PostValues(data, hash)[..7] == PutValues(data, recordId).value[..7]
  {
    var post := PostValues(data, hash);
    var put := PutValues(data, recordId).value;
    assert post[4] == put[4] && post[5] == put[5];
  }

  /**
   * A request without flags: post() creates a read-only, non-administrator
   * account, while put() makes it a writable non-administrator.
   */
  lemma MissingFlags(data: Record, hash: Value -> Value, recordId: Value)
    requires "account_admin" !in data && "account_readonly" !in data
    requires PhpTruthy(recordId)
    ensures PostValues(data, hash)[4] == Int(0) && PostValues(data, hash)[5] == Int(1)
    ensures PutValues(data, recordId).value[4] == Int(0) && PutValues(data, recordId).value[5] == Int(0)
  {
  }

  /** The two handlers read the string "1" differently: post() ignores it, put() takes it as set. */
  lemma StringFlagsDiffer(data: Record, hash: Value -> Value, recordId: Value)
    requires Get(data, "account_admin") == Str("1") && PhpTruthy(recordId)
    ensures PostValues(data, hash)[4] == Int(0) && PutValues(data, recordId).value[4] == Int(1)
  {
  }
}
