/**
 * The page's module-level state and the functions of the timeline script that change it,
 * each proved against the value-level specification in `Timeline`.
 */
module Simulation {
  import opened Json
  import opened Evaluator
  import opened Rules
  import opened EngineSetup
  import opened Timeline

  /** `engines`, `pendingMessages`, the drawn lines, `messages` and `animatingMessages`. */
  class Session {
    const run: Oracle
    const idOf: IdSupply
    var engines: Registry
    var order: seq<string>
    var pending: seq<Message>
    var lines: seq<Line>
    var messages: seq<Message>
    var issued: nat
    var animating: seq<Anim>

    /** Everything but the animation entries, as a value. */
    function Current(): World
      reads this
    {
      World(engines, order, pending, lines, messages, issued)
    }

    /**
     * The registry's key order matches its keys, every line joins two registered engines,
     * every animation entry points at its line, and no id animates twice.
     */
    ghost predicate Valid()
      reads this
    {
      && WellKeyed(Setup(engines, order))
      && LinesConnected(Current())
      && AnimsLinked(Current(), animating)
      && DistinctIds(animating)
    }

    /** The page before `initializeApp`. */
    constructor (run: Oracle, idOf: IdSupply)
      ensures Valid()
      ensures this.run == run && this.idOf == idOf
      ensures Current() == EmptyWorld() && animating == []
    {
      this.run := run;
      this.idOf := idOf;
      engines, order, pending, lines, messages, issued := map[], [], [], [], [], 0;
      animating := [];
    }

    /** `queueMessage`: append one message with the next id; an `undefined` payload becomes `null`. */
    method QueueMessage(from: string, to: string, msgType: string, payload: Option<Value>) returns (m: Message)
      modifies this
      ensures m == Message(from, to, msgType, payload.GetOr(Null), idOf(old(issued)))
      ensures Current() == old(Current()).(pending := old(pending) + [m], issued := old(issued) + 1)
      ensures animating == old(animating)
    {
      m := Message(from, to, msgType, payload.GetOr(Null), idOf(issued));
      pending := pending + [m];
      issued := issued + 1;
    }

    /** `initializeApp`: register the engines, queue their initial messages, show them. */
    method InitializeApp(doc: Option<seq<EngineDecl>>)
      requires Valid()
      modifies this
      ensures Valid()
      ensures Current() == Initialize(run, idOf, old(Current()), doc)
      ensures animating == old(animating)
    {
      InitializeKeepsLinks(run, idOf, Current(), animating, doc);
      if doc.None? {
        return;
      }
      RegisterEngines(doc.value);
      QueueAllInitialMessages();
      UpdatePendingMessages();
    }

    /** The engine set-up loop of `initializeApp`: each named entry is stored under its name, the last one winning. */
    method RegisterEngines(ds: seq<EngineDecl>)
      modifies this
      ensures Setup(engines, order) == RegisterAll(Setup(old(engines), old(order)), ds)
      ensures pending == old(pending) && lines == old(lines) && messages == old(messages)
      ensures issued == old(issued) && animating == old(animating)
    {
      var i := 0;
      while i < |ds|
        invariant 0 <= i <= |ds|
        invariant Setup(engines, order) == RegisterAll(Setup(old(engines), old(order)), ds[..i])
        invariant pending == old(pending) && lines == old(lines) && messages == old(messages)
        invariant issued == old(issued) && animating == old(animating)
      {
        var d := ds[i];
        if d.name.Some? && d.name.value != "" {
          var n := d.name.value;
          if n !in engines {
            order := order + [n];
          }
          engines := engines[n := MakeEngine(d, n)];
        }
        assert ds[..i + 1][..i] == ds[..i];
        i := i + 1;
      }
      assert ds[..|ds|] == ds;
    }

    /** The initial-message loop of `initializeApp`: every registered engine, in key order. */
    method QueueAllInitialMessages()
      modifies this
      ensures Current() == Enqueue(idOf, old(Current()), InitialDrafts(run, engines, order))
      ensures engines == old(engines) && order == old(order) && animating == old(animating)
    {
      ghost var w1 := Current();
      var k := 0;
      while k < |order|
        invariant 0 <= k <= |order|
        invariant engines == w1.engines && order == w1.order && animating == old(animating)
        invariant Current() == Enqueue(idOf, w1, InitialDrafts(run, engines, order[..k]))
      {
        ghost var before := InitialDrafts(run, engines, order[..k]);
        assert order[..k + 1][..k] == order[..k];
        if order[k] in engines {
          var e := engines[order[k]];
          QueueInitialMessages(e);
          EnqueueAppend(idOf, w1, before, InitialOf(run, e, e.initialMessages));
        }
        k := k + 1;
      }
      assert order[..|order|] == order;
    }

    /** The `initialMessages` loop of `initializeApp` for one engine: queue each well-formed template. */
    method QueueInitialMessages(e: Engine)
      modifies this
      ensures Current() == Enqueue(idOf, old(Current()), InitialOf(run, e, e.initialMessages))
      ensures animating == old(animating)
    {
      var ts := e.initialMessages;
      ghost var w0 := Current();
      var j := 0;
      while j < |ts|
        invariant 0 <= j <= |ts|
        invariant animating == old(animating)
        invariant Current() == Enqueue(idOf, w0, InitialOf(run, e, ts[..j]))
      {
        var t := ts[j];
        assert ts[..j + 1][..j] == ts[..j];
        if t.to.Some? && t.to.value != "" && t.msgType.Some? && t.msgType.value != "" {
          var payload := PayloadArgument(run, t.payload, e.state);
          EnqueueSnoc(idOf, w0, InitialOf(run, e, ts[..j]), InitialDraft(run, e, t).value);
          var _ := QueueMessage(e.name, t.to.value, t.msgType.value, payload);
        }
        j := j + 1;
      }
      assert ts[..|ts|] == ts;
    }

    /** `processMessage`: unknown target is a no-op; else snapshot, effect phase, generation phase. */
    method ProcessMessage(m: Message)
      requires Valid()
      modifies this
      ensures Valid()
      ensures Current() == Process(run, idOf, old(Current()), m)
      ensures animating == old(animating)
    {
      if m.to !in engines {
        return;
      }
      var originalState := engines[m.to].state;
      HandleMessageForEngine(m);
      GenerateNewMessages(m, originalState);
    }

    /** `handleMessageForEngine`: apply the first matching handler's state effect, if it yields a value. */
    method HandleMessageForEngine(m: Message)
      modifies this
      ensures Current() == old(Current()).(engines := ApplyEffect(run, old(engines), m))
      ensures animating == old(animating)
    {
      if m.to !in engines {
        return;
      }
      var e := engines[m.to];
      if |e.handlers| == 0 {
        return;
      }
      var found := FindHandler(run, e.handlers, e.state, m);
      if found.None? {
        return;
      }
      var h := e.handlers[found.value];
      if Present(h.stateEffect) {
        var result := Evaluate(run, h.stateEffect, EffectContext(e.state, m), None);
        if result.Some? {
          engines := engines[m.to := e.(state := result.value)];
        }
      }
    }

    /**
     * `generateNewMessages`: for every handler with a `generateMessages` array whose guard
     * holds on `originalState`, queue each well-formed template, payloads on the live state.
     */
    method GenerateNewMessages(m: Message, originalState: Value)
      modifies this
      ensures Current() == Enqueue(idOf, old(Current()),
        if m.to in old(engines)
        then Generated(run, old(engines)[m.to].handlers, originalState, old(engines)[m.to].state, m)
        else [])
      ensures animating == old(animating)
    {
      if m.to !in engines {
        return;
      }
      var e := engines[m.to];
      var hs := e.handlers;
      ghost var w0 := Current();
      var i := 0;
      while i < |hs|
        invariant 0 <= i <= |hs|
        invariant engines == w0.engines && animating == old(animating)
        invariant Current() == Enqueue(idOf, w0, Generated(run, hs[..i], originalState, e.state, m))
      {
        ghost var before := Generated(run, hs[..i], originalState, e.state, m);
        GeneratedSnoc(run, hs, i, originalState, e.state, m);
        GenerateForHandler(m, hs[i], originalState, e.state);
        EnqueueAppend(idOf, w0, before, Emitted(run, hs[i], originalState, e.state, m));
        i := i + 1;
      }
      assert hs[..|hs|] == hs;
    }

    /**
     * The `forEach` callback of `generateNewMessages` for one handler: when it has a
     * `generateMessages` array and its guard holds on the snapshot, queue its templates.
     */
    method GenerateForHandler(m: Message, h: Handler, originalState: Value, post: Value)
      modifies this
      ensures Current() == Enqueue(idOf, old(Current()), Emitted(run, h, originalState, post, m))
      ensures engines == old(engines) && animating == old(animating)
    {
      if h.generateMessages.None? || !GuardHolds(run, h, originalState, m) {
        return;
      }
      QueueTemplates(m, h.generateMessages.value, post);
    }

    /**
     * The template loop of `generateNewMessages`: each template with a truthy `to` and
     * `type` is queued from the delivering engine, `"from"` resolved to the trigger's sender.
     */
    method QueueTemplates(m: Message, ts: seq<Template>, post: Value)
      modifies this
      ensures Current() == Enqueue(idOf, old(Current()), InstantiateAll(run, ts, post, m))
      ensures engines == old(engines) && animating == old(animating)
    {
      ghost var w0 := Current();
      var j := 0;
      while j < |ts|
        invariant 0 <= j <= |ts|
        invariant engines == w0.engines && animating == old(animating)
        invariant Current() == Enqueue(idOf, w0, InstantiateAll(run, ts[..j], post, m))
      {
        var t := ts[j];
        InstantiateAllSnoc(run, ts, j, post, m);
        if t.to.Some? && t.to.value != "" && t.msgType.Some? && t.msgType.value != "" {
          var target := ResolveTarget(t.to.value, m.from);
          var payload := PayloadArgument(run, t.payload, post);
          EnqueueSnoc(idOf, w0, InstantiateAll(run, ts[..j], post, m), Instantiate(run, t, post, m).value);
          var _ := QueueMessage(m.to, target, t.msgType.value, payload);
        }
        j := j + 1;
      }
      assert ts[..|ts|] == ts;
    }

    /** `updatePendingMessages`: draw the pending messages not already shown, then clear the queue. */
    method UpdatePendingMessages()
      modifies this
      ensures Current() == ShowPending(old(Current()))
      ensures animating == old(animating)
    {
      if |pending| == 0 {
        return;
      }
      var unseen := UnseenPending();
      if |unseen| == 0 {
        return;
      }
      DrawDotted(unseen);
      pending := [];
    }

    /** The pending messages whose id no `.dotted-line` element carries yet, in queue order. */
    method UnseenPending() returns (unseen: seq<Message>)
      ensures unseen == FilterNew(pending, DottedIds(lines))
    {
      var existing := DottedIds(lines);
      unseen := [];
      var i := 0;
      while i < |pending|
        invariant 0 <= i <= |pending|
        invariant unseen == FilterNew(pending[..i], existing)
      {
        FilterNewSnoc(pending, i, existing);
        if pending[i].id !in existing {
          unseen := unseen + [pending[i]];
        }
        i := i + 1;
      }
      assert pending[..|pending|] == pending;
    }

    /** One `createMessageLine(..., true)` per message, in order; no line when an end is not registered. */
    method DrawDotted(ms: seq<Message>)
      modifies this
      ensures Current() == old(Current()).(lines := old(lines) + DrawLines(ms, engines))
      ensures animating == old(animating)
    {
      var j := 0;
      while j < |ms|
        invariant 0 <= j <= |ms|
        invariant Current() == old(Current()).(lines := old(lines) + DrawLines(ms[..j], engines))
        invariant animating == old(animating)
      {
        DrawLinesSnoc(ms, j, engines);
        var x := ms[j];
        if x.from in engines && x.to in engines {
          lines := lines + [Line(x, true)];
        }
        j := j + 1;
      }
      assert ms[..|ms|] == ms;
    }

    /** The click handler of line `k`: ignored while that id is animating, otherwise start its animation. */
    method ClickLine(k: nat, now: int)
      requires Valid() && k < |lines|
      modifies this
      ensures Valid()
      ensures Current() == old(Current())
      ensures animating == Click(old(Current()), old(animating), k, now)
    {
      ClickKeepsIdsDistinct(Current(), animating, k, now);
      if IsAnimating(animating, lines[k].msg.id) {
        return;
      }
      animating := animating + [Anim(lines[k].msg, k, now, false)];
    }

    /**
     * `animateTimeline` at time `now`: every entry whose animation has run its course is
     * completed, in order; then the completed entries are dropped.
     */
    method AnimateTimeline(now: int)
      requires Valid()
      modifies this
      ensures Valid()
      ensures Current() == TickWorld(run, idOf, old(Current()), old(animating), now)
      ensures animating == Remaining(old(animating), now)
    {
      ghost var w0 := Current();
      ghost var a0 := animating;
      CompleteDue(now);
      TickKeepsAnimsLinked(run, idOf, w0, a0, now);
      TickKeepsLinesConnected(run, idOf, w0, a0, now);
      TickKeepsWellKeyed(run, idOf, w0, a0, now);
      RemainingKeepsIdsDistinct(a0, now);
      UncompletedAfterMarkDue(a0, now);
      animating := Uncompleted(animating);
    }

    /** The `forEach` loop of `animateTimeline`: visit every entry, in order. */
    method CompleteDue(now: int)
      requires Valid()
      modifies this
      ensures Valid()
      ensures Current() == TickWorld(run, idOf, old(Current()), old(animating), now)
      ensures animating == MarkDue(old(animating), now)
    {
      ghost var w0 := Current();
      ghost var a0 := animating;
      var i := 0;
      while i < |animating|
        invariant 0 <= i <= |animating| == |a0|
        invariant Valid()
        invariant Current() == TickWorld(run, idOf, w0, a0[..i], now)
        invariant animating == MarkDue(a0[..i], now) + a0[i..]
      {
        VisitEntry(i, now);
        TickWorldStep(run, idOf, w0, a0, i, now);
        MarkDueStep(a0, i, now);
        i := i + 1;
      }
      assert a0[..|a0|] == a0;
    }

    /**
     * The `forEach` callback of `animateTimeline` for entry `i`: when it is not completed and
     * its animation has run its course, mark it completed, turn its line solid, process its
     * message, record it in `messages`, and show the pending queue.
     */
    method VisitEntry(i: nat, now: int)
      requires Valid() && i < |animating|
      modifies this
      ensures Valid()
      ensures Current() == TickStep(run, idOf, old(Current()), old(animating)[i], now)
      ensures animating == old(animating)[i := Mark(old(animating)[i], now)]
    {
      var e := animating[i];
      if e.completed || now - e.startTime < AnimationDuration {
        return;
      }
      MarkCompletedKeepsLinks(Current(), animating, i);
      animating := animating[i := e.(completed := true)];
      lines := MarkSolid(lines, e.line);
      ProcessMessage(e.msg);
      messages := messages + [e.msg];
      ShowPendingKeepsLinks(Current(), animating);
      UpdatePendingMessages();
    }
  }
}
