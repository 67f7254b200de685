/** The shop-front comment endpoints: listing, abuse reports, creation and self-service
    deletion. Every collaborator the actions consult (definition resolution, form
    validation, event listeners, the comment table) is an explicit parameter. */
module FrontCommentController {
  import opened PhpValues
  import opened HttpRequest
  import opened CommentModel
  import opened EventDispatch

  /** The definition event as `getDefinition` fills it before dispatching it: the ref,
      the ref id, the logged-in customer and the module configuration. The resolution
      listeners, a parameter `resolve` of the actions, decide on it. */
  datatype DefinitionQuery = DefinitionQuery(ref: Value, refId: Value, customer: Option<Customer>, config: map<string, Value>)

  /** A definition the resolution listeners accepted: the customer and configuration
      they settled on, whether the author counts as verified and whether the ref takes
      ratings. */
  datatype Definition = Definition(customer: Option<Customer>, config: map<string, Value>, verified: bool, hasRating: bool)

  /** Resolution either yields a definition or throws an invalid-definition exception,
      silent or carrying a message meant for the visitor. */
  datatype DefinitionOutcome = Resolved(definition: Definition) | InvalidDefinition(silent: bool, message: string)

  datatype ValidationGroup = DefaultGroup | AnonymousGroup | RatingGroup

  /** Either the framework's access-denied outcome or a JSON `{success, messages}` envelope. */
  datatype CreateResponse = AccessDenied | Envelope(success: bool, messages: seq<Message>)

  /** Validating the submitted form either binds its fields or throws with a message. */
  datatype FormOutcome = FormValid(bound: EventFields) | FormInvalid(message: string)

  /** The creation event: the fields bound from the form with the values the controller
      sets over them, the initial status (which replaces any bound status) and the
      comment a listener created, if any. */
  datatype CreateEvent = CreateEvent(fields: EventFields, status: Status, comment: Option<Comment>)

  /** The groups the submitted form is validated with. */
  function ValidationGroups(def: Definition): (groups: seq<ValidationGroup>)
    ensures |groups| > 0 && groups[0] == DefaultGroup
    ensures AnonymousGroup in groups <==> def.customer.None?
    ensures RatingGroup in groups <==> !def.hasRating
    ensures forall i, j :: 0 <= i < j < |groups| ==> groups[i] != groups[j]
  {
    [DefaultGroup]
    + (if def.customer.None? then [AnonymousGroup] else [])
    + (if !def.hasRating then [RatingGroup] else [])
  }

  /** Whether the configuration the definition carries asks for moderation. */
  predicate Moderated(def: Definition) {
    Truthy(Lookup(def.config, "moderate"))
  }

  /** The status a new comment starts in: accepted at once, or pending when moderated;
      creation never starts a comment as rejected. */
  function InitialStatus(def: Definition): (s: Status)
    ensures s == Accepted <==> !Moderated(def)
    ensures s == Pending <==> Moderated(def)
  {
    if !Moderated(def) then Accepted else Pending
  }

  /** The event `createAction` dispatches: the bound form fields, with `verified` taken
      from the definition, the id of the definition's customer when it has one, the request
      locale and the initial status; no comment yet. `fields.status` keeps the bound
      value, which `setStatus` overrides: the status the listeners act on is `status`. */
  function CreationEvent(def: Definition, bound: EventFields, locale: string): (e: CreateEvent)
    ensures e.fields.verified == Bool(def.verified)
    ensures def.customer.Some? ==> e.fields.customerId == Int(def.customer.value.id)
    ensures def.customer.None? ==> e.fields.customerId == bound.customerId
    ensures e.fields.locale == Str(locale)
    ensures e.fields.(verified := bound.verified, customerId := bound.customerId, locale := bound.locale) == bound
    ensures (e.status == Accepted <==> !Moderated(def)) && (e.status == Pending <==> Moderated(def))
    ensures e.comment.None?
  {
    var withCustomer := if def.customer.Some? then bound.(customerId := Int(def.customer.value.id)) else bound;
    CreateEvent(withCustomer.(verified := Bool(def.verified), locale := Str(locale)), InitialStatus(def), None)
  }

  /** The definition query of a creation request: ref and ref_id come from the
      submitted `admin_add_comment` array. */
  function CreationQuery(addComment: map<string, Value>, customer: Option<Customer>, config: map<string, Value>): DefinitionQuery {
    DefinitionQuery(Lookup(addComment, "ref"), Lookup(addComment, "ref_id"), customer, config)
  }

  /** `createAction`. `addComment` is the submitted form array, `locale` the request
      locale, `resolve` the definition listeners, `validate` the form validation under
      the given groups and `dispatch` the creation listeners. */
  function CreateAction(addComment: map<string, Value>, customer: Option<Customer>, config: map<string, Value>, locale: string,
                        resolve: DefinitionQuery -> DefinitionOutcome,
                        validate: seq<ValidationGroup> -> FormOutcome,
                        dispatch: CreateEvent -> Step<CreateEvent>): (r: CreateResponse)
    // a silent definition failure, and only that, is an access denial
    ensures var outcome := resolve(CreationQuery(addComment, customer, config));
            r.AccessDenied? <==> outcome.InvalidDefinition? && outcome.silent
    // an explicit one reports exactly its own message
    ensures var outcome := resolve(CreationQuery(addComment, customer, config));
            outcome.InvalidDefinition? && !outcome.silent ==> r == Envelope(false, [Raw(outcome.message)])
    // success means the definition resolved, the form validated and a listener created the comment
    ensures var outcome := resolve(CreationQuery(addComment, customer, config));
            r.Envelope? && r.success <==>
              && outcome.Resolved?
              && validate(ValidationGroups(outcome.definition)).FormValid?
              && var created := dispatch(CreationEvent(outcome.definition, validate(ValidationGroups(outcome.definition)).bound, locale));
                 created.Continue? && created.event.comment.Some?
    // on success: thanks first, then the moderation notice exactly when moderated
    ensures var outcome := resolve(CreationQuery(addComment, customer, config));
            r.Envelope? && r.success ==>
              && 1 <= |r.messages| <= 2 && r.messages[0] == ThankYou
              && (|r.messages| == 2 <==> Moderated(outcome.definition))
              && (|r.messages| == 2 ==> r.messages[1] == OnlineOnceVerified)
    // on failure: a single message
    ensures r.Envelope? && !r.success ==> |r.messages| == 1
    // a form error or a listener's exception is reported with its own message
    ensures var outcome := resolve(CreationQuery(addComment, customer, config));
            outcome.Resolved? && validate(ValidationGroups(outcome.definition)).FormInvalid? ==>
              r == Envelope(false, [Raw(validate(ValidationGroups(outcome.definition)).message)])
    ensures var outcome := resolve(CreationQuery(addComment, customer, config));
            outcome.Resolved? && validate(ValidationGroups(outcome.definition)).FormValid? ==>
              var created := dispatch(CreationEvent(outcome.definition, validate(ValidationGroups(outcome.definition)).bound, locale));
              && (created.Throw? ==> r == Envelope(false, [Raw(created.message)]))
              && (created.Continue? && created.event.comment.None? ==> r == Envelope(false, [UnknownError]))
  {
    match resolve(CreationQuery(addComment, customer, config))
    case InvalidDefinition(silent, message) =>
      if silent then AccessDenied else Envelope(false, [Raw(message)])
    case Resolved(def) =>
      match validate(ValidationGroups(def))
      case FormInvalid(message) => Envelope(false, [Raw(message)])
      case FormValid(bound) =>
        match dispatch(CreationEvent(def, bound, locale))
        case Throw(message) => Envelope(false, [Raw(message)])
        case Continue(e) =>
          if e.comment.Some? then
            Envelope(true, [ThankYou] + (if Moderated(def) then [OnlineOnceVerified] else []))
          else Envelope(false, [UnknownError])
  }

  /** A failed definition never reaches form validation or the creation listeners:
      the response is the same whatever they would do. */
  lemma FailedDefinitionCreatesNothing(addComment: map<string, Value>, customer: Option<Customer>, config: map<string, Value>, locale: string,
                                       resolve: DefinitionQuery -> DefinitionOutcome,
                                       validate1: seq<ValidationGroup> -> FormOutcome, validate2: seq<ValidationGroup> -> FormOutcome,
                                       dispatch1: CreateEvent -> Step<CreateEvent>, dispatch2: CreateEvent -> Step<CreateEvent>)
    requires resolve(CreationQuery(addComment, customer, config)).InvalidDefinition?
    ensures CreateAction(addComment, customer, config, locale, resolve, validate1, dispatch1)
         == CreateAction(addComment, customer, config, locale, resolve, validate2, dispatch2)
  {
  }

  /** Creation consults the listeners on one event only, the one `CreationEvent`
      builds: two listener behaviours that agree on it give the same response. */
  lemma CreationDispatchesOneEvent(addComment: map<string, Value>, customer: Option<Customer>, config: map<string, Value>, locale: string,
                                   resolve: DefinitionQuery -> DefinitionOutcome,
                                   validate: seq<ValidationGroup> -> FormOutcome,
                                   dispatch1: CreateEvent -> Step<CreateEvent>, dispatch2: CreateEvent -> Step<CreateEvent>)
    requires var outcome := resolve(CreationQuery(addComment, customer, config));
             outcome.Resolved? && validate(ValidationGroups(outcome.definition)).FormValid? ==>
               var e := CreationEvent(outcome.definition, validate(ValidationGroups(outcome.definition)).bound, locale);
               dispatch1(e) == dispatch2(e)
    ensures CreateAction(addComment, customer, config, locale, resolve, validate, dispatch1)
         == CreateAction(addComment, customer, config, locale, resolve, validate, dispatch2)
  {
  }

  /** An anonymous visitor, whose resolved definition has no customer either, submitting
      a valid form while moderation is on: the form is
      validated with the anonymous group, the event goes out pending and without a
      customer id of the visitor's own, and once a listener creates the comment the
      visitor is thanked and told it will appear after review. */
  lemma ModeratedAnonymousSubmission(addComment: map<string, Value>, config: map<string, Value>, locale: string,
                                     resolve: DefinitionQuery -> DefinitionOutcome,
                                     validate: seq<ValidationGroup> -> FormOutcome,
                                     dispatch: CreateEvent -> Step<CreateEvent>)
    requires resolve(CreationQuery(addComment, None, config)).Resolved?
    requires var def := resolve(CreationQuery(addComment, None, config)).definition;
             def.customer.None? && Moderated(def) && validate(ValidationGroups(def)).FormValid?
    requires var def := resolve(CreationQuery(addComment, None, config)).definition;
             var created := dispatch(CreationEvent(def, validate(ValidationGroups(def)).bound, locale));
             created.Continue? && created.event.comment.Some?
    ensures var def := resolve(CreationQuery(addComment, None, config)).definition;
            var e := CreationEvent(def, validate(ValidationGroups(def)).bound, locale);
            && AnonymousGroup in ValidationGroups(def)
            && e.status == Pending
            && e.fields.customerId == validate(ValidationGroups(def)).bound.customerId
            && CreateAction(addComment, None, config, locale, resolve, validate, dispatch) == Envelope(true, [ThankYou, OnlineOnceVerified])
  {
  }

  /** What `getAction` renders: the ref and ref id asked for and the page window. */
  datatype GetResponse = GetDenied | RenderComments(ref: Value, refId: Value, start: Value, count: Value)

  /** `getAction`: only a silent definition failure is refused; an explicit one is
      ignored and the list is rendered, with `start` defaulting to 0 and `count` to 10. */
  function GetAction(req: Request, customer: Option<Customer>, config: map<string, Value>,
                     resolve: DefinitionQuery -> DefinitionOutcome): (r: GetResponse)
    ensures var outcome := resolve(DefinitionQuery(Get(req, "ref", Null), Get(req, "ref_id", Null), customer, config));
            r.GetDenied? <==> outcome.InvalidDefinition? && outcome.silent
    ensures r.RenderComments? ==> r.ref == Get(req, "ref", Null) && r.refId == Get(req, "ref_id", Null)
    ensures r.RenderComments? && "start" !in req.attributes && "start" !in req.query && "start" !in req.body ==> r.start == Int(0)
    ensures r.RenderComments? && "count" !in req.attributes && "count" !in req.query && "count" !in req.body ==> r.count == Int(10)
    ensures r.RenderComments? && "start" in req.query && "start" !in req.attributes ==> r.start == req.query["start"]
    ensures r.RenderComments? && "count" in req.query && "count" !in req.attributes ==> r.count == req.query["count"]
  {
    match resolve(DefinitionQuery(Get(req, "ref", Null), Get(req, "ref_id", Null), customer, config))
    case InvalidDefinition(true, _) => GetDenied
    case _ =>
      RenderComments(Get(req, "ref", Null), Get(req, "ref_id", Null), Get(req, "start", Int(0)), Get(req, "count", Int(10)))
  }

  /** Validating the abuse form either yields the comment id or throws. */
  datatype AbuseForm = AbuseFormValid(id: Value) | AbuseFormInvalid(message: string)

  datatype AbuseResponse = AbuseResponse(success: bool, message: Message)

  /** `abuseAction`: `report` is the abuse listener, `None` when it completes and the
      exception's message when it throws. Success means the report was handed to the
      listener and it completed; any exception gives the generic refusal, never the
      exception's text. */
  function AbuseAction(form: AbuseForm, report: Value -> Option<string>): (r: AbuseResponse)
    ensures r.success <==> form.AbuseFormValid? && report(form.id).None?
    ensures r.success ==> r.message == AbuseRegistered
    ensures !r.success ==> r.message == AbuseNotValidated
  {
    match form
    case AbuseFormInvalid(_) => AbuseResponse(false, AbuseNotValidated)
    case AbuseFormValid(id) =>
      match report(id)
      case Some(_) => AbuseResponse(false, AbuseNotValidated)
      case None => AbuseResponse(true, AbuseRegistered)
  }

  /** What the delete listener leaves in its event: the deleted comment, nothing, or an
      exception. */
  datatype DeleteOutcome = Deleted(comment: Comment) | NothingDeleted | DeleteThrew(message: string)

  datatype DeleteResponse = DeleteResponse(success: bool, message: Message)

  /** A self-service deletion as the source is written: a response, or an error that
      escapes the action because it is not an `Exception`. */
  datatype DeleteAttempt = Responded(response: DeleteResponse) | UncaughtError

  /** `deleteAction` as written: with nobody logged in, `$customer->getId()` is a call
      on null, which raises an `Error`; the action only catches `Exception`, so the
      error escapes whenever the comment exists. */
  function DeleteActionAsWritten(commentId: Value, customer: Option<Customer>, store: map<Value, Comment>,
                                 delete: Value -> DeleteOutcome): (r: DeleteAttempt)
    // the error escapes exactly when nobody is logged in and the comment exists
    ensures r.UncaughtError? <==> customer.None? && FindPk(store, commentId).Some?
    // otherwise only the owner, with the listener's agreement, succeeds
    ensures r.Responded? ==>
      && (r.response.success <==> Owns(customer, store, commentId) && delete(commentId).Deleted?)
      && r.response.message == (if r.response.success then CommentDeleted else CommentNotRemoved)
  {
    match FindPk(store, commentId)
    case None => Responded(DeleteResponse(false, CommentNotRemoved))
    case Some(c) =>
      match customer
      case None => UncaughtError
      case Some(cu) =>
        if c.customerId == Int(cu.id) && delete(commentId).Deleted? then Responded(DeleteResponse(true, CommentDeleted))
        else Responded(DeleteResponse(false, CommentNotRemoved))
  }

  /** A visitor who is not logged in and asks to delete any existing comment gets no
      JSON answer at all, whatever the delete listener would do. */
  lemma AnonymousDeleteEscapes(commentId: Value, store: map<Value, Comment>, delete: Value -> DeleteOutcome)
    requires FindPk(store, commentId).Some?
    ensures DeleteActionAsWritten(commentId, None, store, delete) == UncaughtError
  {
  }

  /** `deleteAction` with every failure, a missing customer included, reported as the
      one generic refusal. Success needs all three of: the comment exists, its
      customer id is identical (`===`) to the logged-in customer's, and the delete
      listener returns the comment. */
  function DeleteAction(commentId: Value, customer: Option<Customer>, store: map<Value, Comment>,
                        delete: Value -> DeleteOutcome): (r: DeleteResponse)
    ensures r.success <==>
      && FindPk(store, commentId).Some?
      && customer.Some?
      && FindPk(store, commentId).value.customerId == Int(customer.value.id)
      && delete(commentId).Deleted?
    ensures r.message == (if r.success then CommentDeleted else CommentNotRemoved)
  {
    match DeleteActionAsWritten(commentId, customer, store, delete)
    case Responded(response) => response
    case UncaughtError => DeleteResponse(false, CommentNotRemoved)
  }

  /** The corrected action answers exactly as the written one wherever the written one
      answers at all. */
  lemma DeleteAgreesWhereWrittenAnswers(commentId: Value, customer: Option<Customer>, store: map<Value, Comment>,
                                        delete: Value -> DeleteOutcome)
    ensures DeleteActionAsWritten(commentId, customer, store, delete).Responded? ==>
      DeleteActionAsWritten(commentId, customer, store, delete).response == DeleteAction(commentId, customer, store, delete)
    ensures DeleteActionAsWritten(commentId, customer, store, delete).UncaughtError? <==>
      customer.None? && FindPk(store, commentId).Some?
  {
  }

  /** Whether the comment under `commentId` belongs to the customer. */
  predicate Owns(customer: Option<Customer>, store: map<Value, Comment>, commentId: Value) {
    customer.Some? && FindPk(store, commentId).Some? && FindPk(store, commentId).value.customerId == Int(customer.value.id)
  }

  /** Someone who does not own the comment cannot tell a comment of somebody else's
      from a missing one, nor learn anything from the delete listener: the answer is
      always the same refusal. */
  lemma NonOwnerLearnsNothing(commentId: Value, customer: Option<Customer>,
                              store1: map<Value, Comment>, store2: map<Value, Comment>,
                              delete1: Value -> DeleteOutcome, delete2: Value -> DeleteOutcome)
    requires !Owns(customer, store1, commentId) && !Owns(customer, store2, commentId)
    ensures DeleteAction(commentId, customer, store1, delete1) == DeleteAction(commentId, customer, store2, delete2)
    ensures DeleteAction(commentId, customer, store1, delete1) == DeleteResponse(false, CommentNotRemoved)
  {
  }
}
