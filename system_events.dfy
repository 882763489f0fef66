/**
 * The behaviour registration and event firing of system/system.js:
 * `addBehaviors`, `on`, `fire`, `log`, and the filter of `system.file.list`.
 */
module SystemEvents {
  import opened JsValues

  /** An event as described in `this.events`: its `log` text (the empty
      string standing for a falsy one) and its `error` and `behavior` flags. */
  datatype EventSpec = EventSpec(log: string, error: bool, behavior: bool)

  /** One side-effecting step of `fire`: a line handed to `System.log`, a
      call `this.error(name, message)`, or `this.behave(name)`. */
  datatype Step = Logged(line: string) | ErrorCalled(name: string, message: string) | Behaved(name: string)

  /** What `fire` depends on besides its arguments: the instance id, the
      event descriptions the loader put in `this.events`, and which error and
      behave steps throw. System declares `error` only as a static method, so
      whether `this.error` resolves depends on the loader superclass, and
      `behave` runs the registered listeners; both are outside this model. */
  datatype Env = Env(id: string, events: map<string, EventSpec>, throwing: set<Step>)

  /** One run of the `try` block of `fire`: the steps it completed, and
      whether it got to the end without a throw. */
  datatype Attempt = Attempt(steps: seq<Step>, ok: bool)

  /** A whole `fire` call: the steps performed, and whether it threw. */
  datatype Fired = Fired(steps: seq<Step>, threw: bool)

  /** The line `this.log(text)` hands to `System.log`. */
  function LogLine(env: Env, text: string): string
  {
    env.id + ": " + text
  }

  /** The `try` block of `fire`: an undescribed name throws at once; else
      the message defaults to the name and the log, error and behave steps
      run in that order, each only if its flag is set, up to the first one
      that throws. */
  function TryFire(env: Env, name: string, message: string): Attempt
  {
    if name !in env.events then Attempt([], false)
    else
      var event := env.events[name];
      var msg := if message == "" then name else message;
      var logged := if event.log != "" then [Logged(LogLine(env, event.log + " - " + msg))] else [];
      if event.error && ErrorCalled(name, msg) in env.throwing then Attempt(logged, false)
      else
        var errored := logged + (if event.error then [ErrorCalled(name, msg)] else []);
        if event.behavior && Behaved(name) in env.throwing then Attempt(errored, false)
        else Attempt(errored + (if event.behavior then [Behaved(name)] else []), true)
  }

  /** Reference definition of `fire`: on a throw inside the block,
      "event_fail" is fired in its place by a nested `fire`, and a failure
      of "event_fail" itself propagates as a throw. */
  function FireSpec(env: Env, name: string, message: string): Fired
    decreases if name == "event_fail" then 0 else 1
  {
    var a := TryFire(env, name, message);
    if a.ok then Fired(a.steps, false)
    else if name == "event_fail" then Fired(a.steps, true)
    else
      var b := FireSpec(env, "event_fail", "");
      Fired(a.steps + b.steps, b.threw)
  }

  /** An undescribed name performs none of its own steps: only the
      "event_fail" fallback runs, and a throw escapes only when that
      fallback fails too (or the name was "event_fail" itself). */
  lemma FireUndescribed(env: Env, name: string, message: string)
    requires name !in env.events
    ensures FireSpec(env, name, message) ==
      if name == "event_fail" then Fired([], true)
      else Fired(TryFire(env, "event_fail", "").steps, !TryFire(env, "event_fail", "").ok)
  {
  }

  /** A falsy (absent) message is replaced by the event name. */
  lemma FireDefaultsMessage(env: Env, name: string)
    ensures FireSpec(env, name, "") == FireSpec(env, name, name)
  {
  }

  /** With no step throwing, a described event performs exactly the log,
      error and behave steps whose flags are set, in that order. */
  lemma FireStepsFollowFlags(env: Env, name: string, message: string)
    requires name in env.events
    requires forall s :: s in env.throwing ==> s.Logged?
    ensures var e := env.events[name];
      var msg := if message == "" then name else message;
      FireSpec(env, name, message) == Fired(
        (if e.log != "" then [Logged(LogLine(env, e.log + " - " + msg))] else []) +
        (if e.error then [ErrorCalled(name, msg)] else []) +
        (if e.behavior then [Behaved(name)] else []), false)
  {
  }

  /** A step that throws stops the block: no behave step runs after an
      error step that threw, and "event_fail" runs afterwards. */
  lemma FireStopsAtThrowingStep(env: Env, name: string, message: string)
    requires name in env.events && name != "event_fail"
    requires var msg := if message == "" then name else message;
      env.events[name].error && ErrorCalled(name, msg) in env.throwing
    ensures Behaved(name) !in TryFire(env, name, message).steps
    ensures FireSpec(env, name, message).steps ==
      TryFire(env, name, message).steps + TryFire(env, "event_fail", "").steps
  {
  }

  /** `fire` throws only when the "event_fail" fallback itself fails. */
  lemma {:induction false} FireThrowsOnlyThroughEventFail(env: Env, name: string, message: string)
    requires FireSpec(env, name, message).threw
    ensures !TryFire(env, "event_fail", if name == "event_fail" then message else "").ok
  {
  }

  /** The listener lists of the `EventEmitter`, by event name. */
  type Registry = map<string, seq<Value>>

  function Listeners(reg: Registry, key: string): seq<Value>
  {
    if key in reg then reg[key] else []
  }

  /** `emitter.addListener(key, listener)`: append to the list of `key`. */
  function AddListener(reg: Registry, key: string, listener: Value): Registry
  {
    reg[key := Listeners(reg, key) + [listener]]
  }

  /** How the attachment loop of `addBehaviors` classifies an element. */
  datatype Attachment =
    | Attached(key: string, listener: Value)  // pushed as [true, key]
    | Undescribed(key: string)                // pushed as [false, key]
    | Garbage                                 // pushed as null
    | NullElement                             // Object.getOwnPropertyNames(null) throws

  /** The checks of the attachment loop. `typeof` is "object" for `null`,
      arrays and objects; an empty array's only own property is "length",
      whose value is a number. */
  function Classify(element: Value): (a: Attachment)
    ensures a.NullElement? <==> element.Null?
    ensures a.Attached? ==> |a.key| > 0 && a.listener.Fn? && element.Obj? && |element.props| == 1
    ensures a.Undescribed? ==> element.Arr? || (element.Obj? && |element.props| == 1)
  {
    match element
    case Null => NullElement
    case Arr(items) => if |items| == 0 then Undescribed("length") else Garbage
    case Obj(props) =>
      if |props| != 1 then Garbage
      else if |props[0].key| > 0 && props[0].value.Fn? then Attached(props[0].key, props[0].value)
      else Undescribed(props[0].key)
    case _ => Garbage
  }

  /** The event the post-attachment loop fires for an outcome. */
  function PostEvent(a: Attachment): (e: (string, string))
    ensures e.0 == "behavior_attach" <==> a.Attached?
    ensures a.Attached? ==> e.1 == a.key
    ensures !a.Attached? ==> e.0 == "behavior_attach_fail" && e.1 in {"Event not described.", "Request garbage"}
  {
    match a
    case Attached(key, _) => ("behavior_attach", key)
    case Undescribed(_) => ("behavior_attach_fail", "Event not described.")
    case _ => ("behavior_attach_fail", "Request garbage")
  }

  /** A listener is registered for an element exactly when it is an object
      with one own property, a non-empty key and a function value. */
  lemma AttachedIff(element: Value)
    ensures Classify(element).Attached? <==>
      element.Obj? && |element.props| == 1 &&
      |element.props[0].key| > 0 && element.props[0].value.Fn?
    ensures Classify(element).Attached? ==>
      Classify(element) == Attached(element.props[0].key, element.props[0].value)
  {
  }

  /** The failure message an element that is not attached gets: "Event not
      described." for a lone property with an empty key or a non-function
      value, "Request garbage" for anything else (except `null`, which
      throws). */
  lemma FailureMessages(element: Value)
    requires !Classify(element).Attached? && !element.Null?
    ensures PostEvent(Classify(element)).0 == "behavior_attach_fail"
    ensures PostEvent(Classify(element)).1 == "Event not described." <==>
      (element.Obj? && |element.props| == 1) || element == Arr([])
  {
  }

  function Classified(items: seq<Value>): (atts: seq<Attachment>)
  {
    seq(|items|, i requires 0 <= i < |items| => Classify(items[i]))
  }

  function PostEvents(atts: seq<Attachment>): (events: seq<(string, string)>)
  {
    seq(|atts|, i requires 0 <= i < |atts| => PostEvent(atts[i]))
  }

  /** The registry after attaching the outcomes `atts` in order. */
  function Register(reg: Registry, atts: seq<Attachment>): Registry
    decreases |atts|
  {
    if |atts| == 0 then reg
    else
      var prev := Register(reg, atts[..|atts| - 1]);
      match atts[|atts| - 1]
      case Attached(key, listener) => AddListener(prev, key, listener)
      case _ => prev
  }

  /** The listeners attached under `key` by the outcomes `atts`, in order. */
  function AttachedListeners(atts: seq<Attachment>, key: string): seq<Value>
    decreases |atts|
  {
    if |atts| == 0 then []
    else
      var prev := AttachedListeners(atts[..|atts| - 1], key);
      match atts[|atts| - 1]
      case Attached(k, listener) => if k == key then prev + [listener] else prev
      case _ => prev
  }

  /** Registering appends, for every key, exactly the listeners attached
      under it, in element order, behind the ones already there. */
  lemma {:induction false} RegisterAppends(reg: Registry, atts: seq<Attachment>, key: string)
    ensures Listeners(Register(reg, atts), key) == Listeners(reg, key) + AttachedListeners(atts, key)
    decreases |atts|
  {
    if |atts| > 0 {
      RegisterAppends(reg, atts[..|atts| - 1], key);
    }
  }

  /** What each event does when fired on its own. A `fire` does not
      depend on what was performed before it, so a sequence of fires is the
      chain of these outcomes. */
  function Outcomes(env: Env, events: seq<(string, string)>): (outs: seq<Fired>)
  {
    seq(|events|, i requires 0 <= i < |events| => FireSpec(env, events[i].0, events[i].1))
  }

  /** Outcomes one after the other, stopping at the first one that threw. */
  function Chain(outs: seq<Fired>): Fired
    decreases |outs|
  {
    if |outs| == 0 then Fired([], false)
    else
      var prev := Chain(outs[..|outs| - 1]);
      if prev.threw then prev
      else Fired(prev.steps + outs[|outs| - 1].steps, outs[|outs| - 1].threw)
  }

  /** The events fired in order, stopping at the first `fire` that throws. */
  function FireAll(env: Env, events: seq<(string, string)>): Fired
  {
    Chain(Outcomes(env, events))
  }

  /** Chaining two runs is running the first, then, if it did not throw,
      the second. */
  lemma {:induction false} ChainSplit(a: seq<Fired>, b: seq<Fired>)
    ensures Chain(a + b) ==
      if Chain(a).threw then Chain(a)
      else Fired(Chain(a).steps + Chain(b).steps, Chain(b).threw)
    decreases |b|
  {
    if |b| == 0 {
      assert a + b == a;
    } else {
      var b' := b[..|b| - 1];
      assert (a + b)[..|a + b| - 1] == a + b';
      assert (a + b)[|a + b| - 1] == b[|b| - 1];
      ChainSplit(a, b');
    }
  }

  /** Firing a list of events in two parts is firing the first part, then,
      if that did not throw, the second. */
  lemma FireAllSplit(env: Env, a: seq<(string, string)>, b: seq<(string, string)>)
    ensures FireAll(env, a + b) ==
      if FireAll(env, a).threw then FireAll(env, a)
      else Fired(FireAll(env, a).steps + FireAll(env, b).steps, FireAll(env, b).threw)
  {
    assert Outcomes(env, a + b) == Outcomes(env, a) + Outcomes(env, b);
    ChainSplit(Outcomes(env, a), Outcomes(env, b));
  }

  /** The index of the first `null` element's outcome, or the length. */
  function FirstNull(atts: seq<Attachment>): (k: nat)
    ensures k <= |atts|
    ensures forall j :: 0 <= j < k ==> !atts[j].NullElement?
    ensures k < |atts| ==> atts[k].NullElement?
    decreases |atts|
  {
    if |atts| == 0 then 0
    else if atts[0].NullElement? then 0
    else 1 + FirstNull(atts[1..])
  }

  /** What `addBehaviors` leaves behind: the registry, and the steps of the
      events it fired. */
  datatype Behaviors = Behaviors(registry: Registry, fired: Fired)

  /** Reference definition of `addBehaviors`. A non-array or an empty array
      fires one "behavior_attach_request_fail". Otherwise every element is
      attached in order; a `null` element throws there, with the earlier
      listeners registered and nothing fired; else one event per element
      is fired, in order, after all attachments. */
  function AddBehaviorsSpec(env: Env, reg: Registry, behaviors: Value): Behaviors
  {
    if behaviors.Arr? && |behaviors.items| > 0 then
      var atts := Classified(behaviors.items);
      var k := FirstNull(atts);
      if k < |atts| then Behaviors(Register(reg, atts[..k]), Fired([], true))
      else Behaviors(Register(reg, atts), FireAll(env, PostEvents(atts)))
    else Behaviors(reg, FireSpec(env, "behavior_attach_request_fail", ""))
  }

  /** Anything but a non-empty array registers nothing and fires exactly
      "behavior_attach_request_fail". */
  lemma NotAnArrayFiresRequestFail(env: Env, reg: Registry, behaviors: Value)
    requires !behaviors.Arr? || behaviors.items == []
    ensures AddBehaviorsSpec(env, reg, behaviors) ==
      Behaviors(reg, FireSpec(env, "behavior_attach_request_fail", ""))
  {
  }

  /** `on(event, callback)` wraps the pair in a plain object, which is not
      an array: it never registers the callback. */
  lemma OnNeverRegisters(env: Env, reg: Registry, event: string, callback: Value)
    ensures AddBehaviorsSpec(env, reg, Obj([Prop(event, callback)])) ==
      Behaviors(reg, FireSpec(env, "behavior_attach_request_fail", ""))
  {
  }

  /** Without `null` elements, the listeners under each key grow by exactly
      the functions that the elements attach under it, in element order,
      and the events fired are one per element, in element order. */
  lemma {:induction false} AddBehaviorsEffect(env: Env, reg: Registry, items: seq<Value>, key: string)
    requires |items| > 0
    requires forall i :: 0 <= i < |items| ==> !items[i].Null?
    ensures Listeners(AddBehaviorsSpec(env, reg, Arr(items)).registry, key) ==
      Listeners(reg, key) + AttachedListeners(Classified(items), key)
    ensures AddBehaviorsSpec(env, reg, Arr(items)).fired == FireAll(env, PostEvents(Classified(items)))
  {
    var atts := Classified(items);
    assert FirstNull(atts) == |atts|;
    assert atts[..|atts|] == atts;
    RegisterAppends(reg, atts, key);
  }

  /** A `null` element makes `addBehaviors` throw before firing anything;
      only the elements in front of it have been attached. */
  lemma {:induction false} NullElementThrows(env: Env, reg: Registry, items: seq<Value>, k: nat)
    requires k < |items| && items[k].Null?
    requires forall j :: 0 <= j < k ==> !items[j].Null?
    ensures AddBehaviorsSpec(env, reg, Arr(items)) ==
      Behaviors(Register(reg, Classified(items)[..k]), Fired([], true))
  {
    var atts := Classified(items);
    assert atts[k].NullElement?;
    assert FirstNull(atts) == k;
  }

  /** The System instance: the emitter's listeners and the steps performed
      so far, against a fixed environment. */
  class System {
    const env: Env
    var listeners: Registry
    var performed: seq<Step>

    /** Construction after the loader has filled `this.events`. */
    constructor (env: Env)
      ensures this.env == env && listeners == map[] && performed == []
    {
      this.env := env;
      listeners := map[];
      performed := [];
    }

    /** The string branch of `log`. */
    method LogText(text: string)
      modifies this`performed
      ensures performed == old(performed) + [Logged(LogLine(env, text))]
    {
      performed := performed + [Logged(LogLine(env, text))];
    }

    /** `log(text)`: a string is logged; anything else fires "type_error"
        instead. */
    method Log(text: Value) returns (threw: bool)
      modifies this`performed
      ensures text.Str? ==> performed == old(performed) + [Logged(LogLine(env, text.s))] && !threw
      ensures !text.Str? ==>
        var f := FireSpec(env, "type_error", TypeOf(text) + " not string.");
        performed == old(performed) + f.steps && threw == f.threw
    {
      if text.Str? {
        LogText(text.s);
        threw := false;
      } else {
        threw := Fire("type_error", TypeOf(text) + " not string.");
      }
    }

    /** The `try` block of `fire`, up to the first step that throws. */
    method TryBlock(name: string, message: string) returns (ok: bool)
      modifies this`performed
      ensures performed == old(performed) + TryFire(env, name, message).steps
      ensures ok == TryFire(env, name, message).ok
    {
      if name !in env.events {
        // An undescribed event throws a system error.
        return false;
      }
      var event := env.events[name];
      var msg := message;
      if msg == "" {
        msg := name;
      }
      if event.log != "" {
        LogText(event.log + " - " + msg);
      }
      if event.error {
        if ErrorCalled(name, msg) in env.throwing {
          return false;
        }
        performed := performed + [ErrorCalled(name, msg)];
      }
      if event.behavior {
        if Behaved(name) in env.throwing {
          return false;
        }
        performed := performed + [Behaved(name)];
      }
      return true;
    }

    /** `fire(name, message)`: the `try` block, then the `catch` that fires
        "event_fail" once, or throws when "event_fail" itself failed. */
    method Fire(name: string, message: string) returns (threw: bool)
      modifies this`performed
      ensures performed == old(performed) + FireSpec(env, name, message).steps
      ensures threw == FireSpec(env, name, message).threw
      decreases if name == "event_fail" then 0 else 1
    {
      var ok := TryBlock(name, message);
      threw := false;
      if !ok {
        if name == "event_fail" {
          threw := true;
        } else {
          threw := Fire("event_fail", "");
        }
      }
    }

    /** `addBehaviors(behaviors)`: the attachment loop, then the
        post-attachment loop. */
    method AddBehaviors(behaviors: Value) returns (threw: bool)
      modifies this`listeners, this`performed
      ensures listeners == AddBehaviorsSpec(env, old(listeners), behaviors).registry
      ensures performed == old(performed) + AddBehaviorsSpec(env, old(listeners), behaviors).fired.steps
      ensures threw == AddBehaviorsSpec(env, old(listeners), behaviors).fired.threw
    {
      if behaviors.Arr? && |behaviors.items| > 0 {
        var postAttachment, nullFound := Attach(behaviors.items);
        if nullFound {
          return true;
        }
        ghost var atts := Classified(behaviors.items);
        assert atts[..FirstNull(atts)] == atts;
        threw := FirePostAttachment(postAttachment);
        return;
      }
      threw := Fire("behavior_attach_request_fail", "");
    }

    /** The attachment loop: classify each element and register the
        listener of each valid one; a `null` element throws there. */
    method Attach(items: seq<Value>) returns (postAttachment: seq<Attachment>, nullFound: bool)
      modifies this`listeners
      ensures nullFound <==> FirstNull(Classified(items)) < |items|
      ensures !nullFound ==> postAttachment == Classified(items)
      ensures listeners == Register(old(listeners), Classified(items)[..FirstNull(Classified(items))])
    {
      ghost var atts := Classified(items);
      postAttachment := [];
      var i := 0;
      while i < |items|
        invariant 0 <= i <= |items|
        invariant postAttachment == atts[..i]
        invariant forall j :: 0 <= j < i ==> !atts[j].NullElement?
        invariant listeners == Register(old(listeners), postAttachment)
      {
        var a := Classify(items[i]);
        assert a == atts[i];
        if a.NullElement? {
          FirstNullAt(atts, i);
          return postAttachment, true;
        }
        if a.Attached? {
          listeners := AddListener(listeners, a.key, a.listener);
        }
        assert atts[..i + 1][..i] == atts[..i];
        postAttachment := postAttachment + [a];
        i := i + 1;
      }
      FirstNullAt(atts, i);
      assert atts[..i] == atts;
      return postAttachment, false;
    }

    /** The post-attachment loop: one event per outcome, in order, up to
        the first `fire` that throws. */
    method FirePostAttachment(postAttachment: seq<Attachment>) returns (threw: bool)
      modifies this`performed
      ensures performed == old(performed) + FireAll(env, PostEvents(postAttachment)).steps
      ensures threw == FireAll(env, PostEvents(postAttachment)).threw
    {
      ghost var outs := Outcomes(env, PostEvents(postAttachment));
      var j := 0;
      while j < |postAttachment|
        invariant 0 <= j <= |postAttachment|
        invariant !Chain(outs[..j]).threw
        invariant performed == old(performed) + Chain(outs[..j]).steps
      {
        var t := FireNext(outs, j, PostEvent(postAttachment[j]), old(performed));
        if t {
          ChainStopsAtThrow(outs, j + 1);
          return true;
        }
        j := j + 1;
      }
      assert outs[..j] == outs;
      return false;
    }

    /** One round of the post-attachment loop: fire the next event. */
    method FireNext(ghost outs: seq<Fired>, j: nat, event: (string, string), ghost base: seq<Step>)
      returns (t: bool)
      requires j < |outs| && outs[j] == FireSpec(env, event.0, event.1)
      requires !Chain(outs[..j]).threw
      requires performed == base + Chain(outs[..j]).steps
      modifies this`performed
      ensures performed == base + Chain(outs[..j + 1]).steps
      ensures t == Chain(outs[..j + 1]).threw
    {
      ghost var mid := performed;
      t := Fire(event.0, event.1);
      ChainExtend(outs, j, base, mid, performed);
    }

    /** `on(event, callback)`: hands `{[event]: callback}` to
        `addBehaviors`. */
    method On(event: string, callback: Value) returns (threw: bool)
      modifies this`listeners, this`performed
      ensures listeners == old(listeners)
      ensures performed == old(performed) + FireSpec(env, "behavior_attach_request_fail", "").steps
      ensures threw == FireSpec(env, "behavior_attach_request_fail", "").threw
    {
      var behavior := Obj([Prop(event, callback)]);
      threw := AddBehaviors(behavior);
    }
  }

  /** `FirstNull` is the first position of a `null` outcome. */
  lemma FirstNullAt(atts: seq<Attachment>, i: nat)
    requires i <= |atts|
    requires forall j :: 0 <= j < i ==> !atts[j].NullElement?
    requires i < |atts| ==> atts[i].NullElement?
    ensures FirstNull(atts) == i
  {
  }

  /** One more outcome: the chain of the first `j + 1` in terms of the
      chain of the first `j`. */
  lemma ChainStep(outs: seq<Fired>, j: nat)
    requires j < |outs|
    ensures Chain(outs[..j + 1]) ==
      if Chain(outs[..j]).threw then Chain(outs[..j])
      else Fired(Chain(outs[..j]).steps + outs[j].steps, outs[j].threw)
  {
    assert outs[..j + 1][..j] == outs[..j];
  }

  /** A run that has not thrown, extended by the next outcome. */
  lemma ChainExtend(outs: seq<Fired>, j: nat, base: seq<Step>, mid: seq<Step>, now: seq<Step>)
    requires j < |outs| && !Chain(outs[..j]).threw
    requires mid == base + Chain(outs[..j]).steps && now == mid + outs[j].steps
    ensures now == base + Chain(outs[..j + 1]).steps
    ensures Chain(outs[..j + 1]).threw == outs[j].threw
  {
    ChainStep(outs, j);
  }

  /** After a throw, further outcomes change nothing. */
  lemma {:induction false} ChainStopsAtThrow(outs: seq<Fired>, k: nat)
    requires k <= |outs| && Chain(outs[..k]).threw
    ensures Chain(outs) == Chain(outs[..k])
    decreases |outs| - k
  {
    if k < |outs| {
      assert outs[..k + 1][..k] == outs[..k];
      ChainStopsAtThrow(outs, k + 1);
    } else {
      assert outs[..k] == outs;
    }
  }

  /** The `filter` argument of `system.file.list`: `null`, a function whose
      (awaited) results are given by their truthiness, or anything else,
      which throws a TypeError when called. */
  datatype Filter = NullFilter | Callable(truthy: string -> bool) | NotCallable

  /** Reference definition of the filtering: the items whose filter result
      is truthy, in their original order. */
  function Kept(items: seq<string>, truthy: string -> bool): seq<string>
    decreases |items|
  {
    if |items| == 0 then []
    else Kept(items[..|items| - 1], truthy) + (if truthy(items[|items| - 1]) then [items[|items| - 1]] else [])
  }

  /** Filtering distributes over concatenation, so it keeps the order... */
  lemma {:induction false} KeptSplit(a: seq<string>, b: seq<string>, truthy: string -> bool)
    ensures Kept(a + b, truthy) == Kept(a, truthy) + Kept(b, truthy)
    decreases |b|
  {
    if |b| == 0 {
      assert a + b == a;
    } else {
      assert (a + b)[..|a + b| - 1] == a + b[..|b| - 1];
      KeptSplit(a, b[..|b| - 1], truthy);
    }
  }

  /** ...and keeps exactly the items whose result is truthy. */
  lemma {:induction false} KeptMembers(items: seq<string>, truthy: string -> bool, x: string)
    ensures x in Kept(items, truthy) <==> x in items && truthy(x)
    decreases |items|
  {
    if |items| > 0 {
      KeptMembers(items[..|items| - 1], truthy, x);
      assert items == items[..|items| - 1] + [items[|items| - 1]];
    }
  }

  /** The filtering part of `system.file.list(dir, filter)` on the listed
      items: call the filter on every item, wait for all results, and keep
      the items whose result is truthy, in order. */
  method ListFiltered(items: seq<string>, filter: Filter) returns (r: Result<seq<string>>)
    ensures filter.NullFilter? ==> r == Ok(items)
    ensures filter.NotCallable? ==> r == if |items| == 0 then Ok([]) else Err(TypeError)
    ensures filter.Callable? ==> r == Ok(Kept(items, filter.truthy))
  {
    if filter.NullFilter? {
      return Ok(items);
    }
    var length := |items|;
    if filter.NotCallable? {
      // The first call `filter(items[0])` throws; with no items there is none.
      return if length == 0 then Ok([]) else Err(TypeError);
    }
    var filterMatches: seq<bool> := [];
    for i := 0 to length
      invariant |filterMatches| == i
      invariant forall j :: 0 <= j < i ==> filterMatches[j] == filter.truthy(items[j])
    {
      filterMatches := filterMatches + [filter.truthy(items[i])];
    }
    var filteredItems: seq<string> := [];
    for i := 0 to length
      invariant filteredItems == Kept(items[..i], filter.truthy)
    {
      assert items[..i + 1][..i] == items[..i];
      if filterMatches[i] {
        filteredItems := filteredItems + [items[i]];
      }
    }
    assert items[..length] == items;
    return Ok(filteredItems);
  }
}
