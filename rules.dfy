/**
 * The rule language of an engine and one delivery step: which handler's state effect
 * fires (`handleMessageForEngine`), and which messages the delivery emits
 * (`generateNewMessages`), as functions over the abstract evaluator.
 */
module Rules {
  import opened Json
  import opened Evaluator
  import opened Seqs

  /** A message template: a handler's `generateMessages` entry or an engine's initial message. */
  datatype Template = Template(to: Option<string>, msgType: Option<string>, payload: Option<Value>)

  /** A handler; `generateMessages` is `None` when the field is absent or not an array. */
  datatype Handler = Handler(guard: Option<Value>, stateEffect: Option<Value>, generateMessages: Option<seq<Template>>)

  /** An engine as the registry holds it. */
  datatype Engine = Engine(name: string, state: Value, handlers: seq<Handler>, initialMessages: seq<Template>)

  /** A message before `queueMessage` gives it an id. */
  datatype Draft = Draft(from: string, to: string, msgType: string, payload: Value)

  /** A queued message. */
  datatype Message = Message(from: string, to: string, msgType: string, payload: Value, id: string)

  /** The module-level `engines` map, keyed by engine name. */
  type Registry = map<string, Engine>

  /** The variables a guard sees: `{state, payload, from, messageType}`. */
  function GuardContext(state: Value, m: Message): Context {
    [("state", state), ("payload", m.payload), ("from", Str(m.from)), ("messageType", Str(m.msgType))]
  }

  /** The variables a state effect sees: `{state, payload, from}`. */
  function EffectContext(state: Value, m: Message): Context {
    [("state", state), ("payload", m.payload), ("from", Str(m.from))]
  }

  /** The variables a payload expression sees: `{state}`. */
  function PayloadContext(state: Value): Context {
    [("state", state)]
  }

  /** A handler's guard is present and evaluates truthy against `state` (default `false`). */
  predicate GuardHolds(run: Oracle, h: Handler, state: Value, m: Message) {
    Present(h.guard) && Present(Evaluate(run, h.guard, GuardContext(state, m), Some(Bool(false))))
  }

  /** `messageHandlers.find(...)`: the index of the first handler whose guard holds. */
  function FindHandler(run: Oracle, hs: seq<Handler>, state: Value, m: Message): (r: Option<nat>)
    ensures r.Some? ==> r.value < |hs| && GuardHolds(run, hs[r.value], state, m)
    ensures r.Some? ==> forall j :: 0 <= j < r.value ==> !GuardHolds(run, hs[j], state, m)
    ensures r.None? <==> forall j :: 0 <= j < |hs| ==> !GuardHolds(run, hs[j], state, m)
  {
    if |hs| == 0 then None
    else if GuardHolds(run, hs[0], state, m) then Some(0)
    else
      match FindHandler(run, hs[1..], state, m)
      case None => None
      case Some(i) => Some(i + 1)
  }

  /** Any index that is the first one satisfying the guard is the one `FindHandler` returns. */
  lemma FindHandlerIsFirst(run: Oracle, hs: seq<Handler>, state: Value, m: Message, i: nat)
    requires i < |hs| && GuardHolds(run, hs[i], state, m)
    requires forall j :: 0 <= j < i ==> !GuardHolds(run, hs[j], state, m)
    ensures FindHandler(run, hs, state, m) == Some(i)
  {
  }

  /**
   * The value `handleMessageForEngine` assigns to the engine's state, or `None` when it
   * assigns nothing: no handlers, no matching handler, no truthy `stateEffect`, or an
   * effect that evaluates to `undefined`.
   */
  function Effect(run: Oracle, hs: seq<Handler>, state: Value, m: Message): (r: Option<Value>)
    ensures r.Some? ==> FindHandler(run, hs, state, m).Some?
    ensures r.Some? ==> IsCode(hs[FindHandler(run, hs, state, m).value].stateEffect)
  {
    if |hs| == 0 then None
    else
      match FindHandler(run, hs, state, m)
      case None => None
      case Some(i) =>
        if Present(hs[i].stateEffect)
        then Evaluate(run, hs[i].stateEffect, EffectContext(state, m), None)
        else None
  }

  /**
   * First-match semantics: the effect is exactly that of the first handler, in declared
   * order, whose guard holds; no other handler's effect is consulted.
   */
  lemma EffectOfFirstMatch(run: Oracle, hs: seq<Handler>, state: Value, m: Message, i: nat)
    requires i < |hs| && GuardHolds(run, hs[i], state, m)
    requires forall j :: 0 <= j < i ==> !GuardHolds(run, hs[j], state, m)
    ensures Effect(run, hs, state, m) ==
      if IsCode(hs[i].stateEffect) then Evaluate(run, hs[i].stateEffect, EffectContext(state, m), None) else None
  {
    FindHandlerIsFirst(run, hs, state, m, i);
  }

  /** Handlers declared after a matching one never influence the effect. */
  lemma EffectIgnoresLaterHandlers(run: Oracle, hs: seq<Handler>, rest: seq<Handler>, state: Value, m: Message)
    requires FindHandler(run, hs, state, m).Some?
    ensures Effect(run, hs + rest, state, m) == Effect(run, hs, state, m)
  {
    var i := FindHandler(run, hs, state, m).value;
    forall j | 0 <= j < i ensures !GuardHolds(run, (hs + rest)[j], state, m) {
      assert (hs + rest)[j] == hs[j];
    }
    assert (hs + rest)[i] == hs[i];
    EffectOfFirstMatch(run, hs + rest, state, m, i);
    EffectOfFirstMatch(run, hs, state, m, i);
  }

  /** A handler with a missing or falsy guard is never the one selected. */
  lemma GuardlessNeverSelected(run: Oracle, hs: seq<Handler>, state: Value, m: Message, j: nat)
    requires j < |hs| && !Present(hs[j].guard)
    ensures FindHandler(run, hs, state, m) != Some(j)
  {
  }

  /**
   * A guard whose code throws falls back to the value its first variable, `state`, holds
   * at the throw; when the code did not reassign `state`, that is the state's truthiness.
   */
  lemma ThrowingGuardTestsState(run: Oracle, h: Handler, state: Value, m: Message)
    requires IsCode(h.guard) && run(h.guard.value.s, GuardContext(state, m)).Threw?
    ensures GuardHolds(run, h, state, m) <==> Present(run(h.guard.value.s, GuardContext(state, m)).first)
    ensures run(h.guard.value.s, GuardContext(state, m)).first == Some(state) ==>
      (GuardHolds(run, h, state, m) <==> Truthy(state))
  {
  }

  /** `to` of a generated message: the sentinel `"from"` sends back to the trigger's sender. */
  function ResolveTarget(to: string, triggerFrom: string): (r: string)
    ensures to != "from" ==> r == to
    ensures to == "from" ==> r == triggerFrom
  {
    if to == "from" then triggerFrom else to
  }

  /**
   * The payload argument handed to `queueMessage`: a string is evaluated against
   * `{state}` with default `null`, anything else (including `undefined`) is passed as is.
   */
  function PayloadArgument(run: Oracle, payload: Option<Value>, state: Value): (r: Option<Value>)
    ensures !(payload.Some? && payload.value.Str?) ==> r == payload
  {
    if payload.Some? && payload.value.Str?
    then Evaluate(run, payload, PayloadContext(state), Some(Null))
    else payload
  }

  /** The payload a queued message carries: `queueMessage` turns `undefined` into `null`. */
  function ResolvePayload(run: Oracle, payload: Option<Value>, state: Value): Value {
    PayloadArgument(run, payload, state).GetOr(Null)
  }

  /** A literal (non-string) payload does not depend on the engine's state. */
  lemma LiteralPayloadIgnoresState(run: Oracle, payload: Option<Value>, s1: Value, s2: Value)
    requires !(payload.Some? && payload.value.Str?)
    ensures ResolvePayload(run, payload, s1) == ResolvePayload(run, payload, s2) == payload.GetOr(Null)
  {
  }

  /** An empty-string payload is not run: it becomes `null`. */
  lemma EmptyStringPayloadIsNull(run: Oracle, state: Value)
    ensures ResolvePayload(run, Some(Str("")), state) == Null
  {
  }

  /** A template is well formed when its `to` and `type` are both truthy. */
  predicate WellFormed(t: Template) {
    PresentName(t.to) && PresentName(t.msgType)
  }

  /** One generated message of a handler of engine `m.to`, or `None` for a malformed template. */
  function Instantiate(run: Oracle, t: Template, post: Value, m: Message): (r: Option<Draft>)
    ensures r.Some? <==> WellFormed(t)
    ensures r.Some? ==> r.value.from == m.to && r.value.to == ResolveTarget(t.to.value, m.from)
                        && r.value.msgType == t.msgType.value
                        && r.value.payload == ResolvePayload(run, t.payload, post)
  {
    if WellFormed(t)
    then Some(Draft(m.to, ResolveTarget(t.to.value, m.from), t.msgType.value, ResolvePayload(run, t.payload, post)))
    else None
  }

  /** The messages one handler's template list emits, in declared order. */
  function InstantiateAll(run: Oracle, ts: seq<Template>, post: Value, m: Message): (r: seq<Draft>)
    ensures |r| <= |ts|
  {
    if |ts| == 0 then []
    else
      var d := Instantiate(run, ts[|ts| - 1], post, m);
      InstantiateAll(run, ts[..|ts| - 1], post, m) + (if d.Some? then [d.value] else [])
  }

  /** Visiting one more template appends its message, if it is well formed. */
  lemma InstantiateAllSnoc(run: Oracle, ts: seq<Template>, j: nat, post: Value, m: Message)
    requires j < |ts|
    ensures InstantiateAll(run, ts[..j + 1], post, m) ==
      InstantiateAll(run, ts[..j], post, m) + (if WellFormed(ts[j]) then [Instantiate(run, ts[j], post, m).value] else [])
  {
    assert ts[..j + 1][..j] == ts[..j];
  }

  lemma {:induction false} InstantiateAllAppend(run: Oracle, a: seq<Template>, b: seq<Template>, post: Value, m: Message)
    ensures InstantiateAll(run, a + b, post, m) == InstantiateAll(run, a, post, m) + InstantiateAll(run, b, post, m)
    decreases |b|
  {
    if |b| == 0 {
      assert a + b == a;
    } else {
      var b' := b[..|b| - 1];
      assert (a + b)[..|a + b| - 1] == a + b';
      assert (a + b)[|a + b| - 1] == b[|b| - 1];
      InstantiateAllAppend(run, a, b', post, m);
    }
  }

  /** A malformed template is skipped without affecting the templates around it. */
  lemma MalformedTemplateSkipped(run: Oracle, a: seq<Template>, t: Template, b: seq<Template>, post: Value, m: Message)
    requires !WellFormed(t)
    ensures InstantiateAll(run, a + [t] + b, post, m) == InstantiateAll(run, a + b, post, m)
  {
    InstantiateAllAppend(run, a + [t], b, post, m);
    InstantiateAllAppend(run, a, [t], post, m);
    InstantiateAllAppend(run, a, b, post, m);
    assert [t][..0] == [];
  }

  /** Every well-formed template, and only those, yields a message. */
  lemma {:induction false} InstantiateAllMembers(run: Oracle, ts: seq<Template>, post: Value, m: Message, d: Draft)
    ensures d in InstantiateAll(run, ts, post, m) <==> exists t :: t in ts && Instantiate(run, t, post, m) == Some(d)
  {
    if |ts| > 0 {
      var ts' := ts[..|ts| - 1];
      InstantiateAllMembers(run, ts', post, m, d);
      assert ts == ts' + [ts[|ts| - 1]];
      if exists t :: t in ts && Instantiate(run, t, post, m) == Some(d) {
        var t :| t in ts && Instantiate(run, t, post, m) == Some(d);
        if t != ts[|ts| - 1] {
          assert t in ts';
        }
      }
    }
  }

  /**
   * What one handler contributes in the generation phase: its templates when it has a
   * `generateMessages` array and its guard holds on the snapshot state `snap`.
   */
  function Emitted(run: Oracle, h: Handler, snap: Value, post: Value, m: Message): seq<Draft> {
    if h.generateMessages.Some? && GuardHolds(run, h, snap, m)
    then InstantiateAll(run, h.generateMessages.value, post, m)
    else []
  }

  /** The generation phase over all handlers, in declared order. */
  function Generated(run: Oracle, hs: seq<Handler>, snap: Value, post: Value, m: Message): seq<Draft>
  {
    ConcatMap((h: Handler) => Emitted(run, h, snap, post, m), hs)
  }

  /** Visiting one more handler appends what it emits. */
  lemma GeneratedSnoc(run: Oracle, hs: seq<Handler>, i: nat, snap: Value, post: Value, m: Message)
    requires i < |hs|
    ensures Generated(run, hs[..i + 1], snap, post, m) == Generated(run, hs[..i], snap, post, m) + Emitted(run, hs[i], snap, post, m)
  {
    assert hs[..i + 1][..i] == hs[..i];
  }

  /** Every generated message is sent by the delivering engine. */
  lemma GeneratedFromTarget(run: Oracle, hs: seq<Handler>, snap: Value, post: Value, m: Message, d: Draft)
    requires d in Generated(run, hs, snap, post, m)
    ensures d.from == m.to
  {
    GeneratedMembers(run, hs, snap, post, m, d);
    var i :| 0 <= i < |hs| && d in Emitted(run, hs[i], snap, post, m);
    EmittedMembers(run, hs[i], snap, post, m, d);
  }

  /**
   * Fan-out order: the output is the contributions of the handlers before `i`, then
   * handler `i`'s, then those after it, whichever handler (if any) fired its effect.
   */
  lemma GeneratedSplitAt(run: Oracle, hs: seq<Handler>, i: nat, snap: Value, post: Value, m: Message)
    requires i < |hs|
    ensures Generated(run, hs, snap, post, m) ==
      Generated(run, hs[..i], snap, post, m) + Emitted(run, hs[i], snap, post, m) + Generated(run, hs[i + 1..], snap, post, m)
  {
    var f := (h: Handler) => Emitted(run, h, snap, post, m);
    assert hs == hs[..i] + [hs[i]] + hs[i + 1..];
    ConcatMapAppend(f, hs[..i] + [hs[i]], hs[i + 1..]);
    ConcatMapAppend(f, hs[..i], [hs[i]]);
    assert [hs[i]][..0] == [];
  }

  /** One handler emits a message exactly when it has templates, its guard holds, and one of them yields it. */
  lemma EmittedMembers(run: Oracle, h: Handler, snap: Value, post: Value, m: Message, d: Draft)
    ensures d in Emitted(run, h, snap, post, m) <==>
      && h.generateMessages.Some? && GuardHolds(run, h, snap, m)
      && exists t :: t in h.generateMessages.value && Instantiate(run, t, post, m) == Some(d)
  {
    if h.generateMessages.Some? {
      InstantiateAllMembers(run, h.generateMessages.value, post, m, d);
    }
  }

  /** A message is generated exactly when some handler emits it. */
  lemma GeneratedMembers(run: Oracle, hs: seq<Handler>, snap: Value, post: Value, m: Message, d: Draft)
    ensures d in Generated(run, hs, snap, post, m) <==>
      exists i :: 0 <= i < |hs| && d in Emitted(run, hs[i], snap, post, m)
  {
    ConcatMapMembers((h: Handler) => Emitted(run, h, snap, post, m), hs, d);
  }

  /**
   * Everything a delivery enqueues: a message goes out exactly when some handler with a
   * `generateMessages` array has its guard hold on the snapshot and one of its well-formed
   * templates names it, sent by the target, routed by `to`, its payload on the live state.
   */
  lemma DeliverGeneratedMembers(run: Oracle, reg: Registry, m: Message, d: Draft)
    requires m.to in reg
    ensures var e := reg[m.to];
      var post := Deliver(run, reg, m).registry[m.to].state;
      d in Deliver(run, reg, m).generated <==>
        exists i, t :: 0 <= i < |e.handlers| && e.handlers[i].generateMessages.Some?
          && GuardHolds(run, e.handlers[i], e.state, m)
          && t in e.handlers[i].generateMessages.value && WellFormed(t)
          && d == Draft(m.to, ResolveTarget(t.to.value, m.from), t.msgType.value, ResolvePayload(run, t.payload, post))
  {
    var e := reg[m.to];
    var post := Deliver(run, reg, m).registry[m.to].state;
    GeneratedMembers(run, e.handlers, e.state, post, m, d);
    if d in Deliver(run, reg, m).generated {
      var i :| 0 <= i < |e.handlers| && d in Emitted(run, e.handlers[i], e.state, post, m);
      EmittedMembers(run, e.handlers[i], e.state, post, m, d);
      var t :| t in e.handlers[i].generateMessages.value && Instantiate(run, t, post, m) == Some(d);
      assert WellFormed(t);
    }
    if exists i, t :: 0 <= i < |e.handlers| && e.handlers[i].generateMessages.Some?
          && GuardHolds(run, e.handlers[i], e.state, m)
          && t in e.handlers[i].generateMessages.value && WellFormed(t)
          && d == Draft(m.to, ResolveTarget(t.to.value, m.from), t.msgType.value, ResolvePayload(run, t.payload, post)) {
      var i, t :| 0 <= i < |e.handlers| && e.handlers[i].generateMessages.Some?
          && GuardHolds(run, e.handlers[i], e.state, m)
          && t in e.handlers[i].generateMessages.value && WellFormed(t)
          && d == Draft(m.to, ResolveTarget(t.to.value, m.from), t.msgType.value, ResolvePayload(run, t.payload, post));
      assert Instantiate(run, t, post, m) == Some(d);
      EmittedMembers(run, e.handlers[i], e.state, post, m, d);
    }
  }

  /**
   * Routing of a reply: a well-formed template of a firing handler yields a message from
   * the target of that type, addressed back to the trigger's sender when `to` is the
   * sentinel `"from"` and to the named engine otherwise.
   */
  lemma DeliverRoutesTemplate(run: Oracle, reg: Registry, m: Message, i: nat, t: Template)
    requires m.to in reg && i < |reg[m.to].handlers|
    requires reg[m.to].handlers[i].generateMessages.Some?
    requires GuardHolds(run, reg[m.to].handlers[i], reg[m.to].state, m)
    requires t in reg[m.to].handlers[i].generateMessages.value && WellFormed(t)
    ensures exists d ::
      && d in Deliver(run, reg, m).generated && d.from == m.to && d.msgType == t.msgType.value
      && (t.to.value == "from" ==> d.to == m.from)
      && (t.to.value != "from" ==> d.to == t.to.value)
  {
    var e := reg[m.to];
    var post := Deliver(run, reg, m).registry[m.to].state;
    var d := Instantiate(run, t, post, m).value;
    EmittedMembers(run, e.handlers[i], e.state, post, m, d);
    GeneratedMembers(run, e.handlers, e.state, post, m, d);
  }

  /** The routing part of a message: everything but its payload. */
  function Header(d: Draft): (string, string, string) {
    (d.from, d.to, d.msgType)
  }

  function Headers(ds: seq<Draft>): (r: seq<(string, string, string)>)
    ensures |r| == |ds|
  {
    if |ds| == 0 then [] else Headers(ds[..|ds| - 1]) + [Header(ds[|ds| - 1])]
  }

  lemma {:induction false} HeadersAppend(a: seq<Draft>, b: seq<Draft>)
    ensures Headers(a + b) == Headers(a) + Headers(b)
    decreases |b|
  {
    if |b| == 0 {
      assert a + b == a;
    } else {
      assert (a + b)[..|a + b| - 1] == a + b[..|b| - 1];
      assert (a + b)[|a + b| - 1] == b[|b| - 1];
      HeadersAppend(a, b[..|b| - 1]);
    }
  }

  lemma {:induction false} InstantiateAllHeaders(run: Oracle, ts: seq<Template>, post1: Value, post2: Value, m: Message)
    ensures Headers(InstantiateAll(run, ts, post1, m)) == Headers(InstantiateAll(run, ts, post2, m))
  {
    if |ts| > 0 {
      var ts' := ts[..|ts| - 1];
      InstantiateAllHeaders(run, ts', post1, post2, m);
      var d1 := Instantiate(run, ts[|ts| - 1], post1, m);
      var d2 := Instantiate(run, ts[|ts| - 1], post2, m);
      HeadersAppend(InstantiateAll(run, ts', post1, m), if d1.Some? then [d1.value] else []);
      HeadersAppend(InstantiateAll(run, ts', post2, m), if d2.Some? then [d2.value] else []);
      if d1.Some? {
        assert Headers([d1.value]) == [Header(d1.value)];
        assert Headers([d2.value]) == [Header(d2.value)];
      }
    }
  }

  /**
   * Generation is independent of the effect phase: which messages are emitted, to whom
   * and of what type depends only on the snapshot; the live state only feeds payloads.
   */
  lemma {:induction false} GeneratedHeadersIgnorePost(run: Oracle, hs: seq<Handler>, snap: Value, post1: Value, post2: Value, m: Message)
    ensures Headers(Generated(run, hs, snap, post1, m)) == Headers(Generated(run, hs, snap, post2, m))
  {
    if |hs| > 0 {
      var hs' := hs[..|hs| - 1];
      var h := hs[|hs| - 1];
      GeneratedHeadersIgnorePost(run, hs', snap, post1, post2, m);
      assert hs[..|hs|] == hs;
      GeneratedSnoc(run, hs, |hs| - 1, snap, post1, m);
      GeneratedSnoc(run, hs, |hs| - 1, snap, post2, m);
      HeadersAppend(Generated(run, hs', snap, post1, m), Emitted(run, h, snap, post1, m));
      HeadersAppend(Generated(run, hs', snap, post2, m), Emitted(run, h, snap, post2, m));
      if h.generateMessages.Some? && GuardHolds(run, h, snap, m) {
        InstantiateAllHeaders(run, h.generateMessages.value, post1, post2, m);
      }
    }
  }

  /**
   * `handleMessageForEngine`: the registry after the effect phase. An unknown target or
   * an effect that assigns nothing leaves the registry as it was.
   */
  function ApplyEffect(run: Oracle, reg: Registry, m: Message): (r: Registry)
    ensures r.Keys == reg.Keys
    ensures m.to in reg ==> r[m.to] == reg[m.to].(state := r[m.to].state)
  {
    if m.to !in reg then reg
    else
      var e := reg[m.to];
      match Effect(run, e.handlers, e.state, m)
      case None => reg
      case Some(v) => reg[m.to := e.(state := v)]
  }

  /** The effect phase changes only the target's state: other engines, names and rules stay. */
  lemma ApplyEffectFrame(run: Oracle, reg: Registry, m: Message, n: string)
    requires n in reg
    ensures var r := ApplyEffect(run, reg, m);
      r[n] == reg[n].(state := r[n].state) && (n != m.to ==> r[n] == reg[n])
  {
  }

  /** The outcome of one delivery: the new registry and the messages it enqueues, in order. */
  datatype Delivery = Delivery(registry: Registry, generated: seq<Draft>)

  /**
   * `processMessage`: snapshot the target's state, run the effect phase on the live state,
   * then the generation phase with guards on the snapshot and payloads on the live state.
   */
  function Deliver(run: Oracle, reg: Registry, m: Message): (r: Delivery)
    ensures m.to !in reg ==> r == Delivery(reg, [])
    ensures r.registry == ApplyEffect(run, reg, m)
  {
    if m.to !in reg then Delivery(reg, [])
    else
      var snap := reg[m.to].state;
      var live := ApplyEffect(run, reg, m);
      Delivery(live, Generated(run, reg[m.to].handlers, snap, live[m.to].state, m))
  }

  /**
   * The target's state changes only through the selected handler's effect, and then
   * becomes exactly the value that effect returned.
   */
  lemma DeliverStateChange(run: Oracle, reg: Registry, m: Message)
    requires m.to in reg
    ensures var e := reg[m.to];
      var after := Deliver(run, reg, m).registry[m.to];
      after == e.(state := after.state) &&
      match Effect(run, e.handlers, e.state, m)
      case None => after.state == e.state
      case Some(v) =>
        after.state == v &&
        var i := FindHandler(run, e.handlers, e.state, m).value;
        IsCode(e.handlers[i].stateEffect) &&
        Evaluate(run, e.handlers[i].stateEffect, EffectContext(e.state, m), None) == Some(v)
  {
  }

  /**
   * Generation guards see the state before the delivery: a handler whose guard holds on
   * it emits its templates, as one contiguous block in handler order, evaluated on the
   * post-effect state, even when the effect changed the state.
   */
  lemma DeliverEmitsOnSnapshot(run: Oracle, reg: Registry, m: Message, i: nat)
    requires m.to in reg && i < |reg[m.to].handlers|
    requires reg[m.to].handlers[i].generateMessages.Some?
    requires GuardHolds(run, reg[m.to].handlers[i], reg[m.to].state, m)
    ensures var hs := reg[m.to].handlers;
      var r := Deliver(run, reg, m);
      var post := r.registry[m.to].state;
      exists before, after ::
        r.generated == before + InstantiateAll(run, hs[i].generateMessages.value, post, m) + after
  {
    var hs := reg[m.to].handlers;
    var r := Deliver(run, reg, m);
    var post := r.registry[m.to].state;
    GeneratedSplitAt(run, hs, i, reg[m.to].state, post, m);
  }

  /** The handler whose effect fired also emits its templates, on the same delivery. */
  lemma SelectedHandlerGenerates(run: Oracle, reg: Registry, m: Message)
    requires m.to in reg
    requires var e := reg[m.to]; var f := FindHandler(run, e.handlers, e.state, m);
      f.Some? && e.handlers[f.value].generateMessages.Some?
    ensures var e := reg[m.to];
      var i := FindHandler(run, e.handlers, e.state, m).value;
      var r := Deliver(run, reg, m);
      exists before, after ::
        r.generated == before + InstantiateAll(run, e.handlers[i].generateMessages.value, r.registry[m.to].state, m) + after
  {
    var e := reg[m.to];
    DeliverEmitsOnSnapshot(run, reg, m, FindHandler(run, e.handlers, e.state, m).value);
  }
}
