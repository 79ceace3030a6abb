/**
  The two record shapes the extraction is asked to fill (bank2tax/core/schema.py),
  the JSON values they are read from and written to, and the JSON Schema that is
  handed to the inference server.

  Reading a record from JSON follows the field declarations: the four account
  fields are optional with default null and have a fixed type when present; a
  document needs a string `source_file` and a list `accounts`, which may be empty.
  Keys a declaration does not name are ignored.
 */
module Schema {
  import opened Wrappers

  /** A Python float. Nothing in the core computes with a balance, so it is kept
      as the bit pattern of the IEEE-754 double it is. */
  datatype Float = Float(bits: bv64)

  /** `ExtractedAccount`: every field may be null. */
  datatype ExtractedAccount = ExtractedAccount(
    accountNumber: Option<string>,
    endingBalance: Option<Float>,
    currency: Option<string>,
    institution: Option<string>)

  /** `ExtractedDocument`: the originating file name and its accounts, in order. */
  datatype ExtractedDocument = ExtractedDocument(
    sourceFile: string,
    accounts: seq<ExtractedAccount>)

  /** The account every field of which took its default. */
  const NullAccount: ExtractedAccount := ExtractedAccount(None, None, None, None)

  /** A parsed JSON value. */
  datatype Json =
    | JNull
    | JBool(b: bool)
    | JNumber(n: Float)
    | JString(s: string)
    | JArray(items: seq<Json>)
    | JObject(members: map<string, Json>)

  function ValidationError(field: string, reason: string): Exception
  {
    Exception("ValidationError", field + ": " + reason)
  }

  // ---------------------------------------------------------------------------
  // Reading records from JSON (validation in strict mode)
  // ---------------------------------------------------------------------------

  /** The value is absent, null, or a string. */
  predicate StringOrNull(m: map<string, Json>, key: string)
  {
    key !in m || m[key].JNull? || m[key].JString?
  }

  /** The value is absent, null, or a number. */
  predicate NumberOrNull(m: map<string, Json>, key: string)
  {
    key !in m || m[key].JNull? || m[key].JNumber?
  }

  /** A field declared `str | None = None`. */
  function OptionalString(m: map<string, Json>, key: string): Result<Option<string>>
  {
    if key !in m then Success(None)
    else match m[key]
      case JNull => Success(None)
      case JString(s) => Success(Some(s))
      case _ => Failure(ValidationError(key, "Input should be a valid string"))
  }

  /** A field declared `float | None = None`. */
  function OptionalNumber(m: map<string, Json>, key: string): Result<Option<Float>>
  {
    if key !in m then Success(None)
    else match m[key]
      case JNull => Success(None)
      case JNumber(n) => Success(Some(n))
      case _ => Failure(ValidationError(key, "Input should be a valid number"))
  }

  function AccountFromJson(v: Json): Result<ExtractedAccount>
  {
    if !v.JObject? then Failure(ValidationError("account", "Input should be an object"))
    else
      var m := v.members;
      var number := OptionalString(m, "account_number");
      var balance := OptionalNumber(m, "ending_balance");
      var currency := OptionalString(m, "currency");
      var institution := OptionalString(m, "institution");
      if number.Failure? then Failure(number.error)
      else if balance.Failure? then Failure(balance.error)
      else if currency.Failure? then Failure(currency.error)
      else if institution.Failure? then Failure(institution.error)
      else Success(ExtractedAccount(number.value, balance.value, currency.value, institution.value))
  }

  /** A `List[ExtractedAccount]`: every item is read as an account, in order. */
  function AccountsFromJson(items: seq<Json>): (r: Result<seq<ExtractedAccount>>)
    ensures r.Success? <==> forall k :: 0 <= k < |items| ==> AccountFromJson(items[k]).Success?
    ensures r.Success? ==>
      |r.value| == |items| &&
      forall k :: 0 <= k < |items| ==> AccountFromJson(items[k]) == Success(r.value[k])
  {
    if items == [] then Success([])
    else
      match AccountFromJson(items[0])
      case Failure(e) => Failure(e)
      case Success(first) =>
        match AccountsFromJson(items[1..])
        case Failure(e) => Failure(e)
        case Success(rest) => Success([first] + rest)
  }

  function DocumentFromJson(v: Json): Result<ExtractedDocument>
  {
    if !v.JObject? then Failure(ValidationError("document", "Input should be an object"))
    else if "source_file" !in v.members then Failure(ValidationError("source_file", "Field required"))
    else if !v.members["source_file"].JString? then Failure(ValidationError("source_file", "Input should be a valid string"))
    else if "accounts" !in v.members then Failure(ValidationError("accounts", "Field required"))
    else if !v.members["accounts"].JArray? then Failure(ValidationError("accounts", "Input should be a valid list"))
    else
      match AccountsFromJson(v.members["accounts"].items)
      case Failure(e) => Failure(e)
      case Success(accounts) => Success(ExtractedDocument(v.members["source_file"].s, accounts))
  }

  // ---------------------------------------------------------------------------
  // Writing records as JSON (every field present, null for a missing value)
  // ---------------------------------------------------------------------------

  function StringToJson(o: Option<string>): Json
  {
    match o
    case None => JNull
    case Some(s) => JString(s)
  }

  /** The double is neither an infinity nor a NaN: its exponent bits are not all set. */
  predicate IsFinite(f: Float)
  {
    f.bits & 0x7FF0_0000_0000_0000 != 0x7FF0_0000_0000_0000
  }

  /** A balance as written: an infinity or a NaN has no JSON number and is
      written as null. */
  function NumberToJson(o: Option<Float>): Json
  {
    match o
    case None => JNull
    case Some(n) => if IsFinite(n) then JNumber(n) else JNull
  }

  function AccountToJson(a: ExtractedAccount): Json
  {
    JObject(map[
      "account_number" := StringToJson(a.accountNumber),
      "ending_balance" := NumberToJson(a.endingBalance),
      "currency" := StringToJson(a.currency),
      "institution" := StringToJson(a.institution)])
  }

  function DocumentToJson(d: ExtractedDocument): Json
  {
    JObject(map[
      "source_file" := JString(d.sourceFile),
      "accounts" := JArray(seq(|d.accounts|, k requires 0 <= k < |d.accounts| => AccountToJson(d.accounts[k])))])
  }

  // ---------------------------------------------------------------------------
  // The JSON Schema of ExtractedDocument, as handed to the inference server
  // ---------------------------------------------------------------------------

  function NullableProperty(jsonType: string, title: string, description: string): Json
  {
    JObject(map[
      "anyOf" := JArray([JObject(map["type" := JString(jsonType)]), JObject(map["type" := JString("null")])]),
      "default" := JNull,
      "description" := JString(description),
      "title" := JString(title)])
  }

  /** The schema of `ExtractedAccount`. */
  const AccountSchema: Json := JObject(map[
    "description" := JString("Structured representation of a single bank account."),
    "properties" := JObject(map[
      "account_number" := NullableProperty("string", "Account Number", "Bank Account Number"),
      "ending_balance" := NullableProperty("number", "Ending Balance", "Ending account balance"),
      "currency" := NullableProperty("string", "Currency", "Currency of the ending balance (e.g., CHF, EUR)"),
      "institution" := NullableProperty("string", "Institution", "Name of the financial institution")]),
    "title" := JString("ExtractedAccount"),
    "type" := JString("object")])

  /** The schema of `ExtractedDocument`, with the account schema under `$defs`. */
  const DocumentSchema: Json := JObject(map[
    "$defs" := JObject(map["ExtractedAccount" := AccountSchema]),
    "description" := JString("Structured representation of extracted data from one document."),
    "properties" := JObject(map[
      "source_file" := JObject(map["title" := JString("Source File"), "type" := JString("string")]),
      "accounts" := JObject(map[
        "items" := JObject(map["$ref" := JString("#/$defs/ExtractedAccount")]),
        "title" := JString("Accounts"),
        "type" := JString("array")])]),
    "required" := JArray([JString("source_file"), JString("accounts")]),
    "title" := JString("ExtractedDocument"),
    "type" := JString("object")])

  // ---------------------------------------------------------------------------
  // Properties of the declarations
  // ---------------------------------------------------------------------------

  /** Absent account fields default to null. */
  lemma AccountFieldsDefaultToNull(m: map<string, Json>)
    requires "account_number" !in m && "ending_balance" !in m && "currency" !in m && "institution" !in m
    ensures AccountFromJson(JObject(m)) == Success(NullAccount)
  {
  }

  /** An object is an account exactly when each of the four fields is absent,
      null, or of its declared type; each present value is then carried over. */
  lemma AccountFieldTypes(m: map<string, Json>)
    ensures AccountFromJson(JObject(m)).Success? <==>
      StringOrNull(m, "account_number") && NumberOrNull(m, "ending_balance") &&
      StringOrNull(m, "currency") && StringOrNull(m, "institution")
    ensures AccountFromJson(JObject(m)).Success? ==>
      var a := AccountFromJson(JObject(m)).value;
      ("account_number" in m && m["account_number"].JString? ==> a.accountNumber == Some(m["account_number"].s)) &&
      ("ending_balance" in m && m["ending_balance"].JNumber? ==> a.endingBalance == Some(m["ending_balance"].n)) &&
      ("currency" in m && m["currency"].JString? ==> a.currency == Some(m["currency"].s)) &&
      ("institution" in m && m["institution"].JString? ==> a.institution == Some(m["institution"].s))
    ensures AccountFromJson(JObject(m)).Success? ==>
      var a := AccountFromJson(JObject(m)).value;
      (("account_number" !in m || m["account_number"].JNull?) ==> a.accountNumber == None) &&
      (("ending_balance" !in m || m["ending_balance"].JNull?) ==> a.endingBalance == None) &&
      (("currency" !in m || m["currency"].JNull?) ==> a.currency == None) &&
      (("institution" !in m || m["institution"].JNull?) ==> a.institution == None)
  {
  }

  /** `source_file` and `accounts` have no default: an object without either is refused. */
  lemma DocumentFieldsRequired(m: map<string, Json>)
    requires "source_file" !in m || "accounts" !in m
    ensures DocumentFromJson(JObject(m)).Failure?
  {
  }

  /** An empty account list is a valid document. */
  lemma EmptyAccountsAccepted(m: map<string, Json>, sourceFile: string)
    requires "source_file" in m && m["source_file"] == JString(sourceFile)
    requires "accounts" in m && m["accounts"] == JArray([])
    ensures DocumentFromJson(JObject(m)) == Success(ExtractedDocument(sourceFile, []))
  {
  }

  /** A document is read exactly when `source_file` is a string, `accounts` is a
      list and every item of it is an account; the accounts keep their order. */
  lemma DocumentFromJsonIff(v: Json)
    ensures DocumentFromJson(v).Success? <==>
      v.JObject? &&
      "source_file" in v.members && v.members["source_file"].JString? &&
      "accounts" in v.members && v.members["accounts"].JArray? &&
      forall k :: 0 <= k < |v.members["accounts"].items| ==> AccountFromJson(v.members["accounts"].items[k]).Success?
    ensures DocumentFromJson(v).Success? ==>
      var d := DocumentFromJson(v).value;
      var items := v.members["accounts"].items;
      d.sourceFile == v.members["source_file"].s &&
      |d.accounts| == |items| &&
      forall k :: 0 <= k < |items| ==> AccountFromJson(items[k]) == Success(d.accounts[k])
  {
  }

  /** The balance, when there is one, is a finite double. */
  predicate FiniteBalance(a: ExtractedAccount)
  {
    a.endingBalance.None? || IsFinite(a.endingBalance.value)
  }

  /** Writing an account with a finite (or no) balance as JSON and reading it
      back gives the same account. */
  lemma AccountRoundTrip(a: ExtractedAccount)
    requires FiniteBalance(a)
    ensures AccountFromJson(AccountToJson(a)) == Success(a)
  {
  }

  /** An infinite or NaN balance does not survive the round trip: it is written
      as null and read back as no balance, the other fields unchanged. */
  lemma NonFiniteBalanceReadsAsNull(a: ExtractedAccount)
    requires !FiniteBalance(a)
    ensures AccountFromJson(AccountToJson(a)) == Success(a.(endingBalance := None))
  {
  }

  /** Writing a document whose balances are all finite as JSON and reading it
      back gives the same document. */
  lemma DocumentRoundTrip(d: ExtractedDocument)
    requires forall k :: 0 <= k < |d.accounts| ==> FiniteBalance(d.accounts[k])
    ensures DocumentFromJson(DocumentToJson(d)) == Success(d)
  {
    var items := DocumentToJson(d).members["accounts"].items;
    forall k | 0 <= k < |items|
      ensures AccountFromJson(items[k]) == Success(d.accounts[k])
    {
      AccountRoundTrip(d.accounts[k]);
    }
    assert AccountsFromJson(items).value == d.accounts;
  }
}
