/** Synchronous event dispatch as the controllers use it: the listeners of one event
    run one after another in decreasing priority (registration order among equal
    priorities), each may change the event, and an exception thrown by one of them
    stops the dispatch and propagates to the caller. */
module EventDispatch {

  datatype Listener<H> = Listener(handler: H, priority: int)

  /** What a listener (or a whole dispatch) does with an event: hand it on, possibly
      changed, or throw an exception carrying a message. */
  datatype Step<E> = Continue(event: E) | Throw(message: string)

  /** The result of a dispatch together with how many listeners were invoked. */
  datatype Run<E> = Run(step: Step<E>, invoked: nat)

  ghost predicate Ordered<H>(ls: seq<Listener<H>>) {
    forall i, j :: 0 <= i < j < |ls| ==> ls[i].priority >= ls[j].priority
  }

  /** Where a listener of priority `p` goes in an ordered list: after every listener
      of priority `p` or more, before every listener of lower priority. */
  function Position<H>(ls: seq<Listener<H>>, p: int): (k: nat)
    requires Ordered(ls)
    ensures k <= |ls|
    ensures forall i :: 0 <= i < k ==> ls[i].priority >= p
    ensures forall i :: k <= i < |ls| ==> ls[i].priority < p
  {
    if |ls| == 0 || ls[0].priority < p then 0 else 1 + Position(ls[1..], p)
  }

  /** Adds a listener to the list of one event. */
  function Register<H>(ls: seq<Listener<H>>, l: Listener<H>): (r: seq<Listener<H>>)
    requires Ordered(ls)
    ensures r == ls[..Position(ls, l.priority)] + [l] + ls[Position(ls, l.priority)..]
    ensures Ordered(r)
  {
    var k := Position(ls, l.priority);
    InsertKeepsOrder(ls, l, k);
    if |ls| == 0 || ls[0].priority < l.priority then
      InsertAtFront(ls, l);
      [l] + ls
    else
      var rest := Register(ls[1..], l);
      InsertBehindHead(ls, l, Position(ls[1..], l.priority));
      [ls[0]] + rest
  }

  lemma InsertAtFront<H>(ls: seq<Listener<H>>, l: Listener<H>)
    ensures ls[..0] + [l] + ls[0..] == [l] + ls
  {
  }

  lemma InsertBehindHead<H>(ls: seq<Listener<H>>, l: Listener<H>, k: nat)
    requires k < |ls|
    ensures [ls[0]] + (ls[1..][..k] + [l] + ls[1..][k..]) == ls[..k + 1] + [l] + ls[k + 1..]
  {
    assert ls[1..][..k] == ls[1..k + 1];
    assert ls[1..][k..] == ls[k + 1..];
    assert [ls[0]] + ls[1..k + 1] == ls[..k + 1];
  }

  /** Inserting a listener between the higher-or-equal and the lower priorities of an
      ordered list keeps it ordered. */
  lemma InsertKeepsOrder<H>(ls: seq<Listener<H>>, l: Listener<H>, k: nat)
    requires Ordered(ls) && k <= |ls|
    requires forall i :: 0 <= i < k ==> ls[i].priority >= l.priority
    requires forall i :: k <= i < |ls| ==> ls[i].priority < l.priority
    ensures Ordered(ls[..k] + [l] + ls[k..])
  {
    var r := ls[..k] + [l] + ls[k..];
    forall i, j | 0 <= i < j < |r| ensures r[i].priority >= r[j].priority {
      if i < k {
        assert r[i] == ls[i];
        if j > k { assert r[j] == ls[j - 1]; } else if j < k { assert r[j] == ls[j]; }
      } else if i == k {
        assert r[j] == ls[j - 1];
      } else {
        assert r[i] == ls[i - 1] && r[j] == ls[j - 1];
      }
    }
  }

  /** Runs the listeners in list order until one throws. */
  function Dispatch<H, E>(ls: seq<Listener<H>>, run: (H, E) -> Step<E>, e: E): (r: Run<E>)
    ensures r.invoked <= |ls|
    ensures r.step.Continue? ==> r.invoked == |ls|
    ensures r.step.Throw? ==> r.invoked > 0
  {
    if |ls| == 0 then Run(Continue(e), 0)
    else
      match run(ls[0].handler, e)
      case Throw(m) => Run(Throw(m), 1)
      case Continue(e') =>
        var rest := Dispatch(ls[1..], run, e');
        Run(rest.step, rest.invoked + 1)
  }

  /** Dispatching to a concatenation is dispatching to the first part and, if that did
      not throw, to the second part with the event the first part produced. */
  lemma {:induction false} DispatchAppend<H, E>(a: seq<Listener<H>>, b: seq<Listener<H>>, run: (H, E) -> Step<E>, e: E)
    ensures Dispatch(a + b, run, e) ==
      match Dispatch(a, run, e).step
      case Throw(m) => Dispatch(a, run, e)
      case Continue(e') => Run(Dispatch(b, run, e').step, |a| + Dispatch(b, run, e').invoked)
  {
    if |a| > 0 {
      assert (a + b)[0] == a[0];
      assert (a + b)[1..] == a[1..] + b;
      match run(a[0].handler, e)
      case Throw(m) =>
      case Continue(e') =>
        DispatchAppend(a[1..], b, run, e');
    }
    else {
      assert a + b == b;
    }
  }

  /** A listener that hands every event on unchanged is invisible: inserted anywhere,
      the dispatch ends the same, with one more listener invoked unless an earlier
      listener threw. */
  lemma TransparentListener<H, E>(a: seq<Listener<H>>, b: seq<Listener<H>>, l: Listener<H>, run: (H, E) -> Step<E>, e: E)
    requires forall x :: run(l.handler, x) == Continue(x)
    ensures var withIt := Dispatch(a + [l] + b, run, e);
            var without := Dispatch(a + b, run, e);
            withIt.step == without.step &&
            (withIt.invoked == without.invoked + 1 || (withIt.step.Throw? && withIt.invoked == without.invoked))
  {
    assert a + [l] + b == a + ([l] + b);
    DispatchAppend(a, [l] + b, run, e);
    DispatchAppend(a, b, run, e);
    match Dispatch(a, run, e).step
    case Throw(m) =>
    case Continue(e') =>
      assert ([l] + b)[1..] == b;
      assert run(l.handler, e') == Continue(e');
  }

  /** A listener that throws on every event ends any dispatch that reaches it: no
      listener after it is invoked. */
  lemma RejectingListener<H, E>(a: seq<Listener<H>>, b: seq<Listener<H>>, l: Listener<H>, run: (H, E) -> Step<E>, e: E, m: string)
    requires forall x :: run(l.handler, x) == Throw(m)
    ensures var r := Dispatch(a + [l] + b, run, e);
            r.step.Throw? && r.invoked <= |a| + 1
  {
    assert a + [l] + b == a + ([l] + b);
    DispatchAppend(a, [l] + b, run, e);
    match Dispatch(a, run, e).step
    case Throw(m') =>
    case Continue(e') =>
      assert run(l.handler, e') == Throw(m);
  }
}
