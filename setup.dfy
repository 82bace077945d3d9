/**
 * Engine setup in `initializeApp`: building the `engines` map from the document's engine
 * entries, and the initial messages each registered engine queues.
 */
module EngineSetup {
  import opened Json
  import opened Evaluator
  import opened Rules

  /** An entry of the document's `engines` array; `None` marks an absent (or non-array) field. */
  datatype EngineDecl = EngineDecl(
    name: Option<string>,
    initialState: Option<Value>,
    messageHandlers: Option<seq<Handler>>,
    initialMessages: Option<seq<Template>>)

  /** The registry together with the order in which its keys were first inserted. */
  datatype Setup = Setup(engines: Registry, order: seq<string>)

  /** The registry record for a named entry: state defaults to `null`, lists to `[]`. */
  function MakeEngine(d: EngineDecl, n: string): (e: Engine)
    ensures e.name == n
    ensures d.initialState.None? ==> e.state == Null
    ensures d.messageHandlers.None? ==> e.handlers == []
    ensures d.initialMessages.None? ==> e.initialMessages == []
  {
    Engine(n, d.initialState.GetOr(Null), d.messageHandlers.GetOr([]), d.initialMessages.GetOr([]))
  }

  /** Register one entry: an entry without a (truthy) name is skipped; a known name is overwritten in place. */
  function Register(s: Setup, d: EngineDecl): (r: Setup)
    ensures r.engines.Keys == s.engines.Keys + (if PresentName(d.name) then {d.name.value} else {})
  {
    if !PresentName(d.name) then s
    else
      var n := d.name.value;
      Setup(s.engines[n := MakeEngine(d, n)], if n in s.engines then s.order else s.order + [n])
  }

  /** The registry after `data.engines.forEach(...)`, entries taken in document order. */
  function RegisterAll(s: Setup, ds: seq<EngineDecl>): (r: Setup)
    ensures s.engines.Keys <= r.engines.Keys
  {
    if |ds| == 0 then s else Register(RegisterAll(s, ds[..|ds| - 1]), ds[|ds| - 1])
  }

  /** `order` lists each key of the registry exactly once, and keys are the engines' names. */
  ghost predicate WellKeyed(s: Setup) {
    && (forall n :: n in s.order <==> n in s.engines)
    && (forall i, j :: 0 <= i < j < |s.order| ==> s.order[i] != s.order[j])
    && (forall n :: n in s.engines ==> s.engines[n].name == n)
  }

  lemma {:induction false} RegisterAllWellKeyed(s: Setup, ds: seq<EngineDecl>)
    requires WellKeyed(s)
    ensures WellKeyed(RegisterAll(s, ds))
  {
    if |ds| > 0 {
      RegisterAllWellKeyed(s, ds[..|ds| - 1]);
    }
  }

  /** A name is registered after setup iff it was registered before or some entry carries it. */
  lemma {:induction false} RegisterAllKeys(s: Setup, ds: seq<EngineDecl>, n: string)
    ensures n in RegisterAll(s, ds).engines <==>
      n in s.engines || exists i :: 0 <= i < |ds| && ds[i].name == Some(n) && n != ""
  {
    if |ds| > 0 {
      var ds' := ds[..|ds| - 1];
      RegisterAllKeys(s, ds', n);
      if exists i :: 0 <= i < |ds| && ds[i].name == Some(n) && n != "" {
        var i :| 0 <= i < |ds| && ds[i].name == Some(n) && n != "";
        if i < |ds| - 1 {
          assert ds'[i] == ds[i];
        }
      }
      if exists i :: 0 <= i < |ds'| && ds'[i].name == Some(n) && n != "" {
        var i :| 0 <= i < |ds'| && ds'[i].name == Some(n) && n != "";
        assert ds[i] == ds'[i];
      }
    }
  }

  /** Last write wins: a name maps to the engine built from the last entry that carries it. */
  lemma {:induction false} RegisterAllLastWins(s: Setup, ds: seq<EngineDecl>, i: nat)
    requires i < |ds| && PresentName(ds[i].name)
    requires forall j :: i < j < |ds| ==> ds[j].name != ds[i].name
    ensures var n := ds[i].name.value;
      n in RegisterAll(s, ds).engines && RegisterAll(s, ds).engines[n] == MakeEngine(ds[i], n)
  {
    var n := ds[i].name.value;
    if i < |ds| - 1 {
      var ds' := ds[..|ds| - 1];
      forall j | i < j < |ds'| ensures ds'[j].name != ds'[i].name {
        assert ds'[j] == ds[j];
      }
      RegisterAllLastWins(s, ds', i);
      assert ds[|ds| - 1].name != Some(n);
    }
  }

  /** Entries without a name change nothing. */
  lemma UnnamedEntrySkipped(s: Setup, ds: seq<EngineDecl>, d: EngineDecl)
    requires !PresentName(d.name)
    ensures RegisterAll(s, ds + [d]) == RegisterAll(s, ds)
  {
    assert (ds + [d])[..|ds + [d]| - 1] == ds;
  }

  /** The initial message a template becomes: `to` is taken literally, the payload is resolved on the initial state. */
  function InitialDraft(run: Oracle, e: Engine, t: Template): (r: Option<Draft>)
    ensures r.Some? <==> WellFormed(t)
    ensures r.Some? ==> r.value == Draft(e.name, t.to.value, t.msgType.value, ResolvePayload(run, t.payload, e.state))
  {
    if WellFormed(t)
    then Some(Draft(e.name, t.to.value, t.msgType.value, ResolvePayload(run, t.payload, e.state)))
    else None
  }

  /** The initial messages of one engine, well-formed templates only, in declared order. */
  function InitialOf(run: Oracle, e: Engine, ts: seq<Template>): (r: seq<Draft>)
    ensures |r| <= |ts|
    ensures forall d :: d in r ==> d.from == e.name
  {
    if |ts| == 0 then []
    else
      var d := InitialDraft(run, e, ts[|ts| - 1]);
      InitialOf(run, e, ts[..|ts| - 1]) + (if d.Some? then [d.value] else [])
  }

  /** A template is queued as an initial message exactly when it is well formed. */
  lemma {:induction false} InitialOfMembers(run: Oracle, e: Engine, ts: seq<Template>, d: Draft)
    ensures d in InitialOf(run, e, ts) <==> exists t :: t in ts && InitialDraft(run, e, t) == Some(d)
  {
    if |ts| > 0 {
      var ts' := ts[..|ts| - 1];
      InitialOfMembers(run, e, ts', d);
      assert ts == ts' + [ts[|ts| - 1]];
      if exists t :: t in ts && InitialDraft(run, e, t) == Some(d) {
        var t :| t in ts && InitialDraft(run, e, t) == Some(d);
        if t != ts[|ts| - 1] {
          assert t in ts';
        }
      }
    }
  }

  /** All initial messages: engines in registry key order, each engine's templates in order. */
  function InitialDrafts(run: Oracle, reg: Registry, order: seq<string>): seq<Draft> {
    if |order| == 0 then []
    else
      var n := order[|order| - 1];
      InitialDrafts(run, reg, order[..|order| - 1]) + (if n in reg then InitialOf(run, reg[n], reg[n].initialMessages) else [])
  }

  /**
   * The initial queue: a message is queued exactly when some listed, registered engine has
   * a well-formed initial template that names it. The engine sends it, `to` is taken as
   * written (no `"from"` sentinel here), and the payload is resolved on the initial state.
   */
  lemma {:induction false} InitialDraftsMembers(run: Oracle, reg: Registry, order: seq<string>, d: Draft)
    ensures d in InitialDrafts(run, reg, order) <==>
      exists k, t :: 0 <= k < |order| && order[k] in reg && t in reg[order[k]].initialMessages && WellFormed(t)
        && d == Draft(reg[order[k]].name, t.to.value, t.msgType.value, ResolvePayload(run, t.payload, reg[order[k]].state))
  {
    if |order| > 0 {
      var order' := order[..|order| - 1];
      var n := order[|order| - 1];
      InitialDraftsMembers(run, reg, order', d);
      if n in reg {
        InitialOfMembers(run, reg[n], reg[n].initialMessages, d);
      }
      if d in InitialDrafts(run, reg, order) && d !in InitialDrafts(run, reg, order') {
        var t :| t in reg[n].initialMessages && InitialDraft(run, reg[n], t) == Some(d);
        assert order[|order| - 1] == n;
      }
      if exists k, t :: 0 <= k < |order| && order[k] in reg && t in reg[order[k]].initialMessages && WellFormed(t)
          && d == Draft(reg[order[k]].name, t.to.value, t.msgType.value, ResolvePayload(run, t.payload, reg[order[k]].state)) {
        var k, t :| 0 <= k < |order| && order[k] in reg && t in reg[order[k]].initialMessages && WellFormed(t)
          && d == Draft(reg[order[k]].name, t.to.value, t.msgType.value, ResolvePayload(run, t.payload, reg[order[k]].state));
        if k < |order| - 1 {
          assert order'[k] == order[k];
        } else {
          assert InitialDraft(run, reg[n], t) == Some(d);
        }
      }
      if exists k, t :: 0 <= k < |order'| && order'[k] in reg && t in reg[order'[k]].initialMessages && WellFormed(t)
          && d == Draft(reg[order'[k]].name, t.to.value, t.msgType.value, ResolvePayload(run, t.payload, reg[order'[k]].state)) {
        var k, t :| 0 <= k < |order'| && order'[k] in reg && t in reg[order'[k]].initialMessages && WellFormed(t)
          && d == Draft(reg[order'[k]].name, t.to.value, t.msgType.value, ResolvePayload(run, t.payload, reg[order'[k]].state));
        assert order[k] == order'[k];
      }
    }
  }

  /** Every initial message is sent by a registered engine. */
  lemma {:induction false} InitialDraftsFromRegistered(run: Oracle, s: Setup, order: seq<string>)
    requires WellKeyed(s)
    ensures forall d :: d in InitialDrafts(run, s.engines, order) ==> d.from in s.engines
  {
    if |order| > 0 {
      InitialDraftsFromRegistered(run, s, order[..|order| - 1]);
    }
  }
}
