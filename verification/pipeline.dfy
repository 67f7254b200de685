/** The front creation request seen end to end: `createAction` dispatching its event
    to the creation listeners, among them the captcha gate. */
module CreationPipeline {
  import opened PhpValues
  import opened HttpRequest
  import opened CommentModel
  import opened EventDispatch
  import opened AddCommentListener
  import opened FrontCommentController

  /** The creation listeners as `createAction` sees them: the registered list run on
      the event, the gate reading the request and the ReCaptcha state. */
  function CreationListeners(ls: seq<Listener<CreateHandler>>, req: Request, reCaptchaActive: bool, human: Value,
                             others: (nat, CreateEvent) -> Step<CreateEvent>): CreateEvent -> Step<CreateEvent>
    requires Ordered(ls)
  {
    (e: CreateEvent) => Dispatch(Register(ls, GateListener()), RunCreate(req, reCaptchaActive, human, others), e).step
  }

  /** A front submission that fails the captcha, with a resolved definition and a valid
      form, while every other creation listener has a lower priority than the gate, is
      answered `{success: false, messages: ["Invalid captcha"]}`: no comment is
      created and the visitor sees the gate's message. */
  lemma RejectedCaptchaIsReported(req: Request, addComment: map<string, Value>, customer: Option<Customer>,
                                  config: map<string, Value>, locale: string,
                                  resolve: DefinitionQuery -> DefinitionOutcome,
                                  validate: seq<ValidationGroup> -> FormOutcome,
                                  ls: seq<Listener<CreateHandler>>, human: Value,
                                  others: (nat, CreateEvent) -> Step<CreateEvent>)
    requires "admin_add_comment" in req.body && !Truthy(human)
    requires Ordered(ls)
    requires forall i :: 0 <= i < |ls| ==> ls[i].priority < GateListener().priority
    requires resolve(CreationQuery(addComment, customer, config)).Resolved?
    requires validate(ValidationGroups(resolve(CreationQuery(addComment, customer, config)).definition)).FormValid?
    ensures CreateAction(addComment, customer, config, locale, resolve, validate, CreationListeners(ls, req, true, human, others))
         == Envelope(false, [Raw(InvalidCaptcha)])
  {
    var def := resolve(CreationQuery(addComment, customer, config)).definition;
    var e := CreationEvent(def, validate(ValidationGroups(def)).bound, locale);
    CaptchaRunsFirst(ls, req, true, human, others, e);
  }

  /** With the ReCaptcha module inactive, or for a submission that is not the front
      form, the gate changes nothing: creation answers as it would without it. */
  lemma InactiveCaptchaChangesNothing(req: Request, addComment: map<string, Value>, customer: Option<Customer>,
                                      config: map<string, Value>, locale: string,
                                      resolve: DefinitionQuery -> DefinitionOutcome,
                                      validate: seq<ValidationGroup> -> FormOutcome,
                                      ls: seq<Listener<CreateHandler>>, reCaptchaActive: bool, human: Value,
                                      others: (nat, CreateEvent) -> Step<CreateEvent>)
    requires "admin_add_comment" !in req.body || !reCaptchaActive
    requires Ordered(ls)
    ensures CreateAction(addComment, customer, config, locale, resolve, validate, CreationListeners(ls, req, reCaptchaActive, human, others))
         == CreateAction(addComment, customer, config, locale, resolve, validate,
                         (e: CreateEvent) => Dispatch(ls, RunCreate(req, reCaptchaActive, human, others), e).step)
  {
    var withGate := CreationListeners(ls, req, reCaptchaActive, human, others);
    var withoutGate := (e: CreateEvent) => Dispatch(ls, RunCreate(req, reCaptchaActive, human, others), e).step;
    forall e: CreateEvent ensures withGate(e) == withoutGate(e) {
      CaptchaPassIsTransparent(ls, req, reCaptchaActive, human, others, e);
    }
    CreationDispatchesOneEvent(addComment, customer, config, locale, resolve, validate, withGate, withoutGate);
  }
}
