/** The back-office comment endpoints: status changes, the per-entity activation flag,
    the module configuration, and the field copying between comments, edit forms and
    events that the generic CRUD screens rely on. */
module BackCommentController {
  import opened PhpValues
  import opened HttpRequest
  import opened CommentModel
  import opened MetaDataStore

  // ---------------------------------------------------------------------------
  // Activation flag

  /** The meta key the activation flags are stored under; its literal value is a
      constant of the comment model class. */
  const MetaKeyActivated: string := "COMMENT_ACTIVATED"

  function ActivationKey(ref: string, refId: int): MetaKey {
    MetaKey(MetaKeyActivated, ref, refId)
  }

  /** The branch the `switch` on the posted status takes. */
  datatype ActivationCase = SetFlag | ClearFlag | NoCase

  /** The branch an integer selects: 0 and 1 set the flag, -1 clears it. */
  function CaseOfNumber(n: int): ActivationCase {
    if n == 0 || n == 1 then SetFlag else if n == -1 then ClearFlag else NoCase
  }

  /** `switch` compares with loose `==`, trying "0", "1" and "-1" in turn. Any
      integer-form spelling selects the branch of its value; a missing parameter and
      any other text select none. */
  function ActivationCaseOf(status: Value): (c: ActivationCase)
    ensures status == Null ==> c == NoCase
    ensures status.Str? && IntegerNumeric(status.s).Some? ==> c == CaseOfNumber(IntegerNumeric(status.s).value)
    ensures status.Str? && IntegerNumeric(status.s).None? ==> c == NoCase
    ensures status.Int? ==> c == CaseOfNumber(status.i)
    ensures status.Bool? ==> c == SetFlag
  {
    NumericLiterals();
    LooseEqualsLiteral(status, "0", 0);
    LooseEqualsLiteral(status, "1", 1);
    LooseEqualsLiteral(status, "-1", -1);
    if LooseEquals(status, "0") || LooseEquals(status, "1") then SetFlag
    else if LooseEquals(status, "-1") then ClearFlag
    else NoCase
  }

  /** A POST parameter: its text, or null when it was not posted. */
  function Posted(p: Option<string>): Value {
    if p.Some? then Str(p.value) else Null
  }

  /** A posted integer-form string selects the branch of its value. */
  lemma ActivationCaseOfNumeric(s: string, n: int)
    requires IntegerNumeric(s) == Some(n)
    ensures ActivationCaseOf(Str(s)) == CaseOfNumber(n)
  {
  }

  /** The literal spellings select their own branch. */
  lemma ActivationCaseOfLiterals()
    ensures ActivationCaseOf(Str("0")) == SetFlag
    ensures ActivationCaseOf(Str("1")) == SetFlag
    ensures ActivationCaseOf(Str("-1")) == ClearFlag
  {
    NumericLiterals();
    ActivationCaseOfNumeric("0", 0);
    ActivationCaseOfNumeric("1", 1);
    ActivationCaseOfNumeric("-1", -1);
  }

  datatype ActivationResponse = ActivationResponse(success: bool, status: string)

  /** The branch the `switch` took, applied to the metadata table under `key`: `posted`
      is the text to store when the flag is set. The reported status is what the table
      holds for the flag afterwards, "-1" if nothing. */
  function ApplyActivation(t: Table, key: MetaKey, c: ActivationCase, posted: string): (r: (Table, ActivationResponse))
    // the reported status is the stored one
    ensures r.1.status == GetVal(r.0, key, "-1")
    // "0" or "1": the posted text is stored under the flag's key
    ensures c == SetFlag ==>
      && r.1.success
      && Entries(r.0, key) == [posted] + (if |Entries(t, key)| > 0 then Entries(t, key)[1..] else [])
    // "-1": every row of the flag goes; success only when exactly one went
    ensures c == ClearFlag ==>
      && (r.1.success <==> |Entries(t, key)| == 1)
      && Entries(r.0, key) == []
      && r.1.status == "-1"
    // anything else: no change and no success
    ensures c == NoCase ==> r.0 == t && !r.1.success
    // other keys are never touched
    ensures forall k :: k != key ==> Entries(r.0, k) == Entries(t, k)
  {
    match c
    case SetFlag =>
      var t' := SetVal(t, key, posted);
      (t', ActivationResponse(true, GetVal(t', key, "-1")))
    case ClearFlag =>
      var (t', deleted) := Delete(t, key);
      (t', ActivationResponse(deleted == 1, GetVal(t', key, "-1")))
    case NoCase =>
      (t, ActivationResponse(false, GetVal(t, key, "-1")))
  }

  /** `activationAction` on the metadata table; `status` is the posted parameter. A
      request that posts no status matches no case: it changes nothing, fails, and
      reports the flag as it is. */
  function ActivationAction(t: Table, ref: string, refId: int, status: Option<string>): (r: (Table, ActivationResponse))
    ensures status.None? ==> r.0 == t && !r.1.success && r.1.status == GetVal(t, ActivationKey(ref, refId), "-1")
  {
    ApplyActivation(t, ActivationKey(ref, refId), ActivationCaseOf(Posted(status)), if status.Some? then status.value else "")
  }

  /** A posted value that sets the flag stores exactly that value and keeps one row
      per key. */
  lemma SettingKeepsUnique(t: Table, ref: string, refId: int, v: string)
    requires Unique(t) && ActivationCaseOf(Str(v)) == SetFlag
    ensures var (t1, r1) := ActivationAction(t, ref, refId, Some(v));
            && r1.success && r1.status == v
            && Entries(t1, ActivationKey(ref, refId)) == [v]
            && Unique(t1)
  {
    var key := ActivationKey(ref, refId);
    assert |Entries(t, key)| <= 1;
    var (t1, r1) := ActivationAction(t, ref, refId, Some(v));
    assert Unique(t1) by {
      forall k ensures |Entries(t1, k)| <= 1 {
        if k != key { assert Entries(t1, k) == Entries(t, k); }
      }
    }
  }

  /** A posted value that clears the flag succeeds exactly when the flag was set,
      leaves no row for it, keeps one row per key, and changes no other key. */
  lemma ClearingKeepsUnique(t: Table, ref: string, refId: int, v: string)
    requires Unique(t) && ActivationCaseOf(Str(v)) == ClearFlag
    ensures var (t1, r1) := ActivationAction(t, ref, refId, Some(v));
            && (r1.success <==> |Entries(t, ActivationKey(ref, refId))| > 0)
            && r1.status == "-1"
            && Entries(t1, ActivationKey(ref, refId)) == []
            && Unique(t1)
            && forall k :: k != ActivationKey(ref, refId) ==> Entries(t1, k) == Entries(t, k)
  {
    var key := ActivationKey(ref, refId);
    assert |Entries(t, key)| <= 1;
    var (t1, r1) := ActivationAction(t, ref, refId, Some(v));
    assert Unique(t1) by {
      forall k ensures |Entries(t1, k)| <= 1 {
        if k != key { assert Entries(t1, k) == Entries(t, k); }
      }
    }
  }

  /** On a table with one row per key, clearing succeeds exactly when the flag was set,
      so clearing a flag that is not there reports failure and changes nothing. */
  lemma ClearSucceedsIffPresent(t: Table, ref: string, refId: int)
    requires Unique(t)
    ensures var r := ActivationAction(t, ref, refId, Some("-1"));
            (r.1.success <==> |Entries(t, ActivationKey(ref, refId))| > 0)
            && (|Entries(t, ActivationKey(ref, refId))| == 0 ==> forall k :: Entries(r.0, k) == Entries(t, k))
  {
    ActivationCaseOfLiterals();
    ClearingKeepsUnique(t, ref, refId, "-1");
  }

  /** Setting a flag to "1" and then clearing it succeeds twice, reports "1" and then
      "-1", keeps one row per key, and leaves no row for the flag; when the flag was not
      set before, every key reads as it did before. */
  lemma SetThenClear(t: Table, ref: string, refId: int)
    requires Unique(t)
    ensures var (t1, r1) := ActivationAction(t, ref, refId, Some("1"));
            var (t2, r2) := ActivationAction(t1, ref, refId, Some("-1"));
            && r1.success && r1.status == "1"
            && r2.success && r2.status == "-1"
            && Unique(t2)
            && Entries(t2, ActivationKey(ref, refId)) == []
            && (|Entries(t, ActivationKey(ref, refId))| == 0 ==> forall k :: Entries(t2, k) == Entries(t, k))
  {
    ActivationCaseOfLiterals();
    SettingKeepsUnique(t, ref, refId, "1");
    var t1 := ActivationAction(t, ref, refId, Some("1")).0;
    ClearingKeepsUnique(t1, ref, refId, "-1");
  }

  // ---------------------------------------------------------------------------
  // Status change

  /** What the status listener leaves in its event: the updated comment, no comment,
      or an exception. */
  datatype StatusOutcome = StatusChanged(comment: Comment) | NoCommentLoaded | StatusThrew(message: string)

  /** The JSON answer `{success, data: {id, status}, error}`, or an `Error` that escapes
      the action when the listener left no comment to read the status of. */
  datatype StatusResponse = StatusResponse(success: bool, data: Option<(Value, Value)>, error: Option<Message>) | StatusFatal

  /** `changeStatusAction`: `body` is the POST body, `change` the status listener. */
  function ChangeStatusAction(body: map<string, Value>, change: (Value, Value) -> StatusOutcome): (r: StatusResponse)
    ensures Lookup(body, "id") == Null || Lookup(body, "status") == Null ==>
      r == StatusResponse(false, None, Some(MissingParameters))
    ensures r.StatusResponse? && r.success <==>
      Lookup(body, "id") != Null && Lookup(body, "status") != Null && change(Lookup(body, "id"), Lookup(body, "status")).StatusChanged?
    ensures r.StatusResponse? && r.success ==>
      r.data == Some((Lookup(body, "id"), change(Lookup(body, "id"), Lookup(body, "status")).comment.status)) && r.error.None?
    ensures Lookup(body, "id") != Null && Lookup(body, "status") != Null && change(Lookup(body, "id"), Lookup(body, "status")).NoCommentLoaded? ==>
      r.StatusFatal?
    ensures Lookup(body, "id") != Null && Lookup(body, "status") != Null && change(Lookup(body, "id"), Lookup(body, "status")).StatusThrew? ==>
      r == StatusResponse(false, None, Some(Raw(change(Lookup(body, "id"), Lookup(body, "status")).message)))
  {
    var id := Lookup(body, "id");
    var status := Lookup(body, "status");
    if id != Null && status != Null then
      match change(id, status)
      case StatusChanged(c) => StatusResponse(true, Some((id, c.status)), None)
      case NoCommentLoaded => StatusFatal
      case StatusThrew(m) => StatusResponse(false, None, Some(Raw(m)))
    else StatusResponse(false, None, Some(MissingParameters))
  }

  /** A request missing `id` or `status` never reaches the status listener: the
      answer is the same whatever the listener would do. */
  lemma MissingParametersDispatchNothing(body: map<string, Value>, change1: (Value, Value) -> StatusOutcome, change2: (Value, Value) -> StatusOutcome)
    requires Lookup(body, "id") == Null || Lookup(body, "status") == Null
    ensures ChangeStatusAction(body, change1) == ChangeStatusAction(body, change2)
  {
  }

  // ---------------------------------------------------------------------------
  // Configuration

  /** The data of a validated configuration form: one entry per field it declares. */
  datatype ConfigData = ConfigData(
    activated: Value, moderate: Value, refAllowed: Value, onlyCustomer: Value,
    onlyVerified: Value, requestCustomerTtl: Value, notifyAdminNewComment: Value)

  /** Validating the configuration form either yields its data or throws. */
  datatype ConfigForm = ConfigFormValid(data: ConfigData) | ConfigFormInvalid(message: string)

  /** Back to the module page, or the configuration page again with an error. */
  datatype ConfigResponse = RedirectToModule | RenderConfigure(error: string)

  /** A configuration variable of the shop: the seven the module writes, each named in
      its comment as `ConfigQuery` stores it, or any other variable, by a name that is
      none of those seven. */
  datatype ConfigVar =
    | CommentActivated              // "comment_activated", from field "activated"
    | CommentModerate               // "comment_moderate", from field "moderate"
    | CommentRefAllowed             // "comment_ref_allowed", from field "ref_allowed"
    | CommentOnlyCustomer           // "comment_only_customer", from field "only_customer"
    | CommentOnlyVerified           // "comment_only_verified", from field "only_verified"
    | CommentRequestCustomerTtl     // "comment_request_customer_ttl", from field "request_customer_ttl"
    | CommentNotifyAdminNewComment  // "comment_notify_admin_new_comment", from field "notify_admin_new_comment"
    | OtherVariable(name: string)

  /** The settings stored as booleans; the others are stored as submitted. */
  predicate IsFlag(k: ConfigVar) {
    k == CommentActivated || k == CommentModerate || k == CommentOnlyCustomer || k == CommentOnlyVerified
  }

  /** The form field a module variable is saved from. */
  function Submitted(data: ConfigData, k: ConfigVar): Value {
    match k
    case CommentActivated => data.activated
    case CommentModerate => data.moderate
    case CommentRefAllowed => data.refAllowed
    case CommentOnlyCustomer => data.onlyCustomer
    case CommentOnlyVerified => data.onlyVerified
    case CommentRequestCustomerTtl => data.requestCustomerTtl
    case CommentNotifyAdminNewComment => data.notifyAdminNewComment
    case OtherVariable(_) => Null
  }

  /** A boolean setting as it is stored: "1" for a truthy value, "0" otherwise. */
  function EncodeFlag(v: Value): (r: Value)
    ensures r in {Str("1"), Str("0")}
    ensures r == Str("1") <==> Truthy(v)
  {
    Str(if Truthy(v) then "1" else "0")
  }

  /** `saveConfiguration` on the configuration variables. An exception's message is
      read with PHP truthiness, so an exception whose message is "" or "0" ends in
      the same redirect as a successful save. */
  function SaveConfiguration(config: map<ConfigVar, Value>, form: ConfigForm): (r: (map<ConfigVar, Value>, ConfigResponse))
    ensures form.ConfigFormValid? ==>
      && r.1 == RedirectToModule
      && r.0.Keys == config.Keys + WrittenKeys()
      && (forall k :: k in WrittenKeys() && IsFlag(k) ==>
            r.0[k] in {Str("1"), Str("0")} && (r.0[k] == Str("1") <==> Truthy(Submitted(form.data, k))))
      && (forall k :: k in WrittenKeys() && !IsFlag(k) ==> r.0[k] == Submitted(form.data, k))
      && (forall k :: k in config && k !in WrittenKeys() ==> r.0[k] == config[k])
    ensures form.ConfigFormInvalid? ==>
      && r.0 == config
      && (Truthy(Str(form.message)) ==> r.1 == RenderConfigure(form.message))
      && (!Truthy(Str(form.message)) ==> r.1 == RedirectToModule)
  {
    match form
    case ConfigFormInvalid(message) =>
      (config, if Truthy(Str(message)) then RenderConfigure(message) else RedirectToModule)
    case ConfigFormValid(data) =>
      // the seven `ConfigQuery::write` calls; they write seven different variables,
      // so the order they are made in does not matter
      var written := map k | k in config.Keys + WrittenKeys() ::
        if k.OtherVariable? then config[k]
        else if IsFlag(k) then EncodeFlag(Submitted(data, k))
        else Submitted(data, k);
      (written, RedirectToModule)
  }

  /** The configuration variables a save writes: exactly the module's own. */
  function WrittenKeys(): (keys: set<ConfigVar>)
    ensures forall k :: k in keys <==> !k.OtherVariable?
  {
    {CommentActivated, CommentModerate, CommentRefAllowed, CommentOnlyCustomer,
     CommentOnlyVerified, CommentRequestCustomerTtl, CommentNotifyAdminNewComment}
  }

  /** Booleans survive the round trip through "1"/"0": reading a stored flag back with
      PHP truthiness gives the truthiness of what was submitted. */
  lemma ConfigFlagsRoundTrip(config: map<ConfigVar, Value>, data: ConfigData)
    ensures var saved := SaveConfiguration(config, ConfigFormValid(data)).0;
            forall k :: IsFlag(k) ==> k in saved && Truthy(saved[k]) == Truthy(Submitted(data, k))
  {
    var saved := SaveConfiguration(config, ConfigFormValid(data)).0;
    forall k | IsFlag(k) ensures k in saved && Truthy(saved[k]) == Truthy(Submitted(data, k)) {
      assert k in WrittenKeys();
    }
  }

  /** Saving the same form data twice leaves the configuration as saving it once. */
  lemma SaveConfigurationIdempotent(config: map<ConfigVar, Value>, data: ConfigData)
    ensures var saved := SaveConfiguration(config, ConfigFormValid(data)).0;
            SaveConfiguration(saved, ConfigFormValid(data)).0 == saved
  {
    var saved := SaveConfiguration(config, ConfigFormValid(data)).0;
    var again := SaveConfiguration(saved, ConfigFormValid(data)).0;
    assert again.Keys == saved.Keys;
    forall k | k in saved ensures again[k] == saved[k] {
      if k.OtherVariable? {
        assert k !in WrittenKeys();
      }
    }
  }

  // ---------------------------------------------------------------------------
  // Form data and events

  /** `hydrateObjectForm`: the data the edit form is filled with. */
  function HydrateObjectForm(c: Comment): map<string, Value> {
    map[
      "id" := c.id, "ref" := c.ref, "ref_id" := c.refId, "customer_id" := c.customerId,
      "username" := c.username, "email" := c.email, "locale" := c.locale, "title" := c.title,
      "content" := c.content, "status" := c.status, "verified" := c.verified, "rating" := c.rating]
  }

  /** `bindFormData`: the eleven event fields, each read from the form data key of the
      same name. */
  function BindFormData(data: map<string, Value>): EventFields {
    EventFields(
      Lookup(data, "ref"), Lookup(data, "ref_id"), Lookup(data, "customer_id"), Lookup(data, "username"),
      Lookup(data, "email"), Lookup(data, "locale"), Lookup(data, "title"), Lookup(data, "content"),
      Lookup(data, "status"), Lookup(data, "verified"), Lookup(data, "rating"))
  }

  /** The update event: the bound fields and the comment id. */
  datatype UpdateEvent = UpdateEvent(id: Value, fields: EventFields)

  /** `getUpdateEvent`. */
  function GetUpdateEvent(data: map<string, Value>): UpdateEvent {
    UpdateEvent(Lookup(data, "id"), BindFormData(data))
  }

  /** `getCreationEvent`: the bound fields alone. */
  function GetCreationEvent(data: map<string, Value>): EventFields {
    BindFormData(data)
  }

  /** The event fields a comment has, field by field. */
  function FieldsOf(c: Comment): EventFields {
    EventFields(c.ref, c.refId, c.customerId, c.username, c.email, c.locale, c.title, c.content, c.status, c.verified, c.rating)
  }

  /** The form keys `bindFormData` reads. */
  const BoundKeys: set<string> := {
    "ref", "ref_id", "customer_id", "username", "email", "locale", "title", "content", "status", "verified", "rating"}

  /** Hydrating the edit form from a comment and binding the unchanged data gives back
      the comment's fields, and the update event carries the comment's id. */
  lemma HydrateThenBind(c: Comment)
    ensures BindFormData(HydrateObjectForm(c)) == FieldsOf(c)
    ensures GetUpdateEvent(HydrateObjectForm(c)) == UpdateEvent(c.id, FieldsOf(c))
    ensures GetCreationEvent(HydrateObjectForm(c)) == FieldsOf(c)
  {
  }

  /** Binding reads the eleven bound keys and nothing else; the update event adds `id`. */
  lemma BindReadsOnlyBoundKeys(d1: map<string, Value>, d2: map<string, Value>)
    requires forall k :: k in BoundKeys ==> Lookup(d1, k) == Lookup(d2, k)
    ensures BindFormData(d1) == BindFormData(d2)
    ensures Lookup(d1, "id") == Lookup(d2, "id") ==> GetUpdateEvent(d1) == GetUpdateEvent(d2)
  {
    assert "ref" in BoundKeys && "ref_id" in BoundKeys && "customer_id" in BoundKeys && "username" in BoundKeys;
    assert "email" in BoundKeys && "locale" in BoundKeys && "title" in BoundKeys && "content" in BoundKeys;
    assert "status" in BoundKeys && "verified" in BoundKeys && "rating" in BoundKeys;
  }

  // ---------------------------------------------------------------------------
  // Loading the edited comment

  /** Loading a comment: found, not found, or an `Error` escaping the action. */
  datatype Loaded = LoadedComment(comment: Option<Comment>) | LoadFatal

  /** `getExistingObject` as written: when `comment_id` is in no bag, the fallback calls
      `attributes('comment_id')`, a method the request does not have, which raises an
      `Error`. */
  function GetExistingObjectAsWritten(req: Request, store: map<Value, Comment>): (r: Loaded)
    ensures r.LoadFatal? <==> Get(req, "comment_id", Null) == Null
    ensures r.LoadedComment? ==> r.comment == FindPk(store, Get(req, "comment_id", Null))
  {
    var id := Get(req, "comment_id", Null);
    if id == Null then LoadFatal else LoadedComment(FindPk(store, id))
  }

  /** Every request whose bags hold no comment id breaks the written loader, and so
      does one whose first bag holding it holds null; any other request loads. */
  lemma MissingIdBreaksLoader(req: Request, store: map<Value, Comment>)
    ensures "comment_id" !in req.attributes && "comment_id" !in req.query && "comment_id" !in req.body ==>
      GetExistingObjectAsWritten(req, store) == LoadFatal
    ensures GetExistingObjectAsWritten(req, store).LoadFatal? <==> Get(req, "comment_id", Null) == Null
  {
  }

  /** `getExistingObject` with the fallback read from the attribute bag. */
  function GetExistingObject(req: Request, store: map<Value, Comment>): (r: Option<Comment>)
    ensures r.Some? ==> Get(req, "comment_id", Null) != Null && Get(req, "comment_id", Null) in store
    ensures Get(req, "comment_id", Null) != Null ==> r == FindPk(store, Get(req, "comment_id", Null))
    ensures Get(req, "comment_id", Null) == Null ==> r.None?
  {
    var id := Get(req, "comment_id", Null);
    var id' := if id == Null then Lookup(req.attributes, "comment_id") else id;
    FindPk(store, id')
  }

  /** The corrected loader agrees with the written one wherever the written one
      returns, and otherwise finds nothing. */
  lemma LoaderAgreesWhereWrittenReturns(req: Request, store: map<Value, Comment>)
    ensures GetExistingObjectAsWritten(req, store).LoadedComment? ==>
      GetExistingObjectAsWritten(req, store).comment == GetExistingObject(req, store)
    ensures GetExistingObjectAsWritten(req, store).LoadFatal? ==> GetExistingObject(req, store).None?
  {
  }
}
