/** The captcha gate on comment creation: a listener of the creation event that, for
    submissions of the front form and while the ReCaptcha module is active, asks the
    ReCaptcha check whether the visitor is human and aborts the creation when not. */
module AddCommentListener {
  import opened PhpValues
  import opened HttpRequest
  import opened EventDispatch

  /** The message of the exception the gate throws. */
  const InvalidCaptcha: string := "Invalid captcha"

  /** The events the listener subscribes to. */
  datatype EventName = CommentCreate

  /** The creation event's listeners: the gate and any others, named by an index. */
  datatype CreateHandler = CaptchaGate | OtherListener(id: nat)

  /** The subscription table: event name to (handler method, priority). */
  function SubscribedEvents(): map<EventName, (string, int)> {
    map[CommentCreate := ("checkCaptcha", 256)]
  }

  /** The gate as it is registered on the creation event. */
  function GateListener(): (l: Listener<CreateHandler>)
    ensures l.handler == CaptchaGate && l.priority == 256
    ensures SubscribedEvents()[CommentCreate] == ("checkCaptcha", l.priority)
  {
    Listener(CaptchaGate, SubscribedEvents()[CommentCreate].1)
  }

  /** Registered among listeners that all have a priority below 256, the gate goes in
      front of every one of them and leaves their order alone. */
  lemma GateRegisteredFirst(ls: seq<Listener<CreateHandler>>)
    requires Ordered(ls)
    requires forall i :: 0 <= i < |ls| ==> ls[i].priority < 256
    ensures Register(ls, GateListener()) == [GateListener()] + ls
  {
    var k := Position(ls, GateListener().priority);
    assert k == 0;
    assert ls[..k] == [] && ls[k..] == ls;
  }

  /** `checkCaptcha`: `None` when the gate lets the creation go on, the exception's
      message otherwise. `reCaptchaActive` says whether an active module with code
      "ReCaptcha" exists; `human` is what the ReCaptcha check event reports, read
      only when the check is dispatched. */
  function CheckCaptcha(req: Request, reCaptchaActive: bool, human: Value): (r: Option<string>)
    ensures r.Some? <==> "admin_add_comment" in req.body && reCaptchaActive && !Truthy(human)
    ensures r.Some? ==> r.value == InvalidCaptcha
  {
    if "admin_add_comment" !in req.body then None
    else if reCaptchaActive then
      if !Truthy(human) then Some(InvalidCaptcha) else None
    else None
  }

  /** How each listener of the creation event handles it: the gate by `CheckCaptcha`,
      without touching the event, the others as `others` says. */
  function RunCreate<E>(req: Request, reCaptchaActive: bool, human: Value, others: (nat, E) -> Step<E>): (CreateHandler, E) -> Step<E> {
    (h: CreateHandler, e: E) =>
      match h
      case CaptchaGate =>
        (match CheckCaptcha(req, reCaptchaActive, human)
         case Some(m) => Throw(m)
         case None => Continue(e))
      case OtherListener(id) => others(id, e)
  }

  /** When the gate rejects, the dispatch of the creation event throws and no listener
      of lower priority than the gate is invoked. */
  lemma CaptchaRejectionStopsLowerPriority<E>(ls: seq<Listener<CreateHandler>>, req: Request, reCaptchaActive: bool, human: Value, others: (nat, E) -> Step<E>, e: E)
    requires Ordered(ls)
    requires CheckCaptcha(req, reCaptchaActive, human).Some?
    ensures var registered := Register(ls, GateListener());
            var r := Dispatch(registered, RunCreate(req, reCaptchaActive, human, others), e);
            r.step.Throw? && forall i :: 0 <= i < r.invoked ==> registered[i].priority >= GateListener().priority
  {
    var run := RunCreate(req, reCaptchaActive, human, others);
    var g := GateListener();
    var k := Position(ls, g.priority);
    var registered := Register(ls, g);
    forall x: E ensures run(g.handler, x) == Throw(InvalidCaptcha) {
    }
    RejectingListener(ls[..k], ls[k..], g, run, e, InvalidCaptcha);
    forall i | 0 <= i <= k ensures registered[i].priority >= g.priority {
      if i < k {
        assert registered[i] == ls[i];
      }
    }
  }

  /** When every other listener has a lower priority, a rejecting gate is the only
      listener invoked and the creation fails with the gate's message. */
  lemma CaptchaRunsFirst<E>(ls: seq<Listener<CreateHandler>>, req: Request, reCaptchaActive: bool, human: Value, others: (nat, E) -> Step<E>, e: E)
    requires Ordered(ls)
    requires forall i :: 0 <= i < |ls| ==> ls[i].priority < GateListener().priority
    requires CheckCaptcha(req, reCaptchaActive, human).Some?
    ensures Dispatch(Register(ls, GateListener()), RunCreate(req, reCaptchaActive, human, others), e) == Run(Throw(InvalidCaptcha), 1)
  {
    var g := GateListener();
    var run := RunCreate(req, reCaptchaActive, human, others);
    GateRegisteredFirst(ls);
    var registered := Register(ls, g);
    assert registered[0] == g;
    assert run(g.handler, e) == Throw(InvalidCaptcha);
  }

  /** A gate that lets the submission through is invisible: the dispatch ends as it
      would have without the gate, with one more listener invoked. */
  lemma CaptchaPassIsTransparent<E>(ls: seq<Listener<CreateHandler>>, req: Request, reCaptchaActive: bool, human: Value, others: (nat, E) -> Step<E>, e: E)
    requires Ordered(ls)
    requires CheckCaptcha(req, reCaptchaActive, human).None?
    ensures var run := RunCreate(req, reCaptchaActive, human, others);
            var withGate := Dispatch(Register(ls, GateListener()), run, e);
            var withoutGate := Dispatch(ls, run, e);
            withGate.step == withoutGate.step &&
            (withGate.invoked == withoutGate.invoked + 1 || (withGate.step.Throw? && withGate.invoked == withoutGate.invoked))
  {
    var run := RunCreate(req, reCaptchaActive, human, others);
    var g := GateListener();
    var k := Position(ls, g.priority);
    forall x: E ensures run(g.handler, x) == Continue(x) {
    }
    assert ls == ls[..k] + ls[k..];
    TransparentListener(ls[..k], ls[k..], g, run, e);
  }
}
