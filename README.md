# Interactive timelines: the message-passing simulation

The interactive timelines page of the specification site loads a JSON document that
declares a set of *engines*. Each engine has a name, an initial state, a list of message
handlers and a list of initial messages. The page then simulates message passing between
them:

- every queued message is drawn as a dotted line between two engine timelines;
- clicking a dotted line starts its animation;
- once the animation has run for `ANIMATION_DURATION` (1500 ms), the message is delivered.

A delivery runs in two phases:

1. **Effect phase.** The first handler whose guard holds rewrites the target engine's
   state with its `stateEffect`.
2. **Generation phase.** Every handler whose guard holds on the state *before* the
   delivery emits its `generateMessages` templates. Their payloads are evaluated on the
   state *after* the effect phase.

Guards, effects and payloads are code strings, run by `evaluateFunctionString`.

This project models that core of `assets/js/interactive_timelines.js`:

- `json.dfy`, module `Json`: the JSON values the rules compute on, with the
  language's truthiness;
- `evaluator.dfy`, module `Evaluator`: `evaluateFunctionString` over an abstract
  evaluation oracle (returned / threw / could not be compiled);
- `rules.dfy`, module `Rules`: handler selection, the effect phase, template
  instantiation and the generation phase, as functions;
- `setup.dfy`, module `EngineSetup`: building the `engines` map in `initializeApp` and
  the initial messages of each engine;
- `timeline.dfy`, module `Timeline`: the page state as a value. This covers the pending
  queue with its id supply, the lines, the delivered history, the `updatePendingMessages`
  dedupe and clear, the click handler, and the completion bookkeeping of `animateTimeline`;
- `simulation.dfy`, module `Simulation`: class `Session` holds the module-level
  variables (`engines`, `pendingMessages`, the drawn lines, `messages`, `animatingMessages`).
  Its methods are the source's functions, with their loops, each proved to compute the
  corresponding `Timeline` function. `Valid()` is preserved by every operation. It says
  the key order matches the registry, every line joins two registered engines, every
  animation entry points at its own line, and no id animates twice;
- `seqs.dfy`, module `Seqs`: a generic ordered concatenation used by the folds.

The host language's evaluation of a code string, the clock (`Date.now()`) and the id
generator (`Date.now()` plus `Math.random()`) are parameters. The oracle `run` and the id
supply `idOf` are fields of `Session` fixed at construction. The time `now` is an argument
of `ClickLine` and `AnimateTimeline`. Id uniqueness is not assumed: where distinct ids
matter, the lemmas take the hypothesis explicitly.

## Model

| member | source | states |
|---|---|---|
| Evaluator.Evaluate | pr-347/assets/js/interactive_timelines.js:17-40 | `evaluateFunctionString`: the result differs from the default only when the argument is a non-empty string that compiled |
| Evaluator.NonCodeIgnoresOracle | pr-347/assets/js/interactive_timelines.js:18 | a missing, non-string or empty code argument is never run: every evaluator returns the default |
| Evaluator.CompiledCodeIgnoresDefault | pr-347/assets/js/interactive_timelines.js:20-36 | once the code compiles, the default plays no part: returning and throwing runs give the same result whatever the default |
| Evaluator.ThrowKeepingFirstReturnsIt | pr-347/assets/js/interactive_timelines.js:26-33 | code that throws without reassigning its first variable yields that variable's initial value, and `null` when there are no variables |
| Evaluator.EvaluateOutcomes | pr-347/assets/js/interactive_timelines.js:17-40 | the result is always the default, the value the code returned, or the value its first variable held when it threw (`null` without variables) |
| Rules.FindHandler | pr-347/assets/js/interactive_timelines.js:444-457 | `messageHandlers.find`: a returned index's guard holds and every earlier guard fails; no index exactly when no guard holds |
| Rules.FindHandlerIsFirst | pr-347/assets/js/interactive_timelines.js:444-457 | the first index whose guard holds is the selected handler |
| Rules.GuardHolds | pr-347/assets/js/interactive_timelines.js:444-456 | a handler's guard is present and evaluates truthy with `{state, payload, from, messageType}` and default `false`; the same test is made at lines 494-504 on the snapshot. Its properties are stated by `FindHandler`, `GuardlessNeverSelected` and `ThrowingGuardTestsState` |
| Rules.GuardlessNeverSelected | pr-347/assets/js/interactive_timelines.js:445 | a handler with a missing or falsy guard is never selected |
| Rules.ThrowingGuardTestsState | pr-347/assets/js/interactive_timelines.js:26-33 | a guard that throws holds exactly when the value `state` holds at the throw is truthy; if the code did not reassign `state`, exactly when the state is truthy |
| Rules.Effect | pr-347/assets/js/interactive_timelines.js:439-478 | an effect value exists only when some handler was selected and its `stateEffect` is a non-empty string |
| Rules.EffectOfFirstMatch | pr-347/assets/js/interactive_timelines.js:444-478 | first-match semantics: the effect is the evaluation of the first matching handler's `stateEffect` with `{state, payload, from}` (default `undefined`), and nothing if it is not code |
| Rules.EffectIgnoresLaterHandlers | pr-347/assets/js/interactive_timelines.js:444-457 | handlers declared after the selected one never influence the effect |
| Rules.ApplyEffect | pr-347/assets/js/interactive_timelines.js:431-479 | the effect phase keeps the registry's keys and changes at most the target's state |
| Rules.ApplyEffectFrame | pr-347/assets/js/interactive_timelines.js:472-475 | every other engine is unchanged; every engine keeps its name, handlers and initial messages |
| Rules.DeliverRoutesTemplate | pr-347/assets/js/interactive_timelines.js:509-519 | a well-formed template of a handler whose snapshot guard holds yields a message from the target, of the template's type, addressed to the trigger's sender when `to` is `"from"` and to the named engine otherwise |
| Rules.PayloadArgument | pr-347/assets/js/interactive_timelines.js:514-516 | a non-string payload (absent included) is passed on unevaluated |
| Rules.LiteralPayloadIgnoresState | pr-347/assets/js/interactive_timelines.js:514-516 | a literal payload does not depend on the state; an absent one becomes `null` |
| Rules.EmptyStringPayloadIsNull | pr-347/assets/js/interactive_timelines.js:514-516 | an empty-string payload is not run and becomes `null` |
| Rules.DeliverGeneratedMembers | pr-347/assets/js/interactive_timelines.js:482-523 | a delivery enqueues a message exactly when some handler with a `generateMessages` array has its guard hold on the snapshot and one of its well-formed templates names it: sender the target, `"from"` resolved, payload on the live state |
| Rules.InstantiateAllAppend | pr-347/assets/js/interactive_timelines.js:509-519 | templates are instantiated independently and in order: a split template list yields the concatenated messages |
| Rules.MalformedTemplateSkipped | pr-347/assets/js/interactive_timelines.js:509 | a template without a truthy `to` or `type` is skipped without affecting its neighbours |
| Rules.InstantiateAllMembers | pr-347/assets/js/interactive_timelines.js:509-519 | a message is emitted exactly when some template yields it |
| Rules.InstantiateAll | pr-347/assets/js/interactive_timelines.js:508-520 | one handler's templates instantiated in order, at most one message each; membership is stated by `InstantiateAllMembers` |
| Rules.EmittedMembers | pr-347/assets/js/interactive_timelines.js:489-521 | one handler emits a message exactly when it has a `generateMessages` array, its guard holds and one of its templates yields the message |
| Rules.Emitted | pr-347/assets/js/interactive_timelines.js:489-521 | one handler's contribution to the generation phase; stated by `EmittedMembers` |
| Rules.GeneratedMembers | pr-347/assets/js/interactive_timelines.js:488-522 | the generation phase emits a message exactly when some handler emits it |
| Rules.Generated | pr-347/assets/js/interactive_timelines.js:488-522 | the generation phase over all handlers; stated by `GeneratedMembers`, `GeneratedSplitAt` and `GeneratedHeadersIgnorePost` |
| Rules.GeneratedFromTarget | pr-347/assets/js/interactive_timelines.js:518 | every generated message is sent by the engine that received the trigger |
| Rules.GeneratedSplitAt | pr-347/assets/js/interactive_timelines.js:488-522 | fan-out order: the handlers before `i`, then handler `i`, then the rest, concatenated |
| Rules.InstantiateAllHeaders | pr-347/assets/js/interactive_timelines.js:509-519 | sender, target and type of the emitted messages do not depend on the state payloads are evaluated on |
| Rules.GeneratedHeadersIgnorePost | pr-347/assets/js/interactive_timelines.js:494-519 | which messages are generated, to whom and of what type depends only on the snapshot; the post-effect state only feeds payloads |
| Rules.Deliver | pr-347/assets/js/interactive_timelines.js:411-428 | an unknown target is a no-op with nothing generated; otherwise the registry is the effect phase's result |
| Rules.DeliverStateChange | pr-347/assets/js/interactive_timelines.js:421-478 | the target's state changes only via a selected handler whose `stateEffect` is code and yields a value; otherwise it is unchanged |
| Rules.DeliverEmitsOnSnapshot | pr-347/assets/js/interactive_timelines.js:421-519 | a handler whose guard holds on the pre-delivery snapshot emits its templates, as one contiguous block, with payloads on the post-effect state |
| Rules.SelectedHandlerGenerates | pr-347/assets/js/interactive_timelines.js:421-519 | the handler whose effect fired also emits its templates in the same delivery |
| EngineSetup.MakeEngine | pr-347/assets/js/interactive_timelines.js:268-273 | the record carries the entry's name; an absent `initialState` becomes `null`, absent or non-array lists become `[]` |
| EngineSetup.Register | pr-347/assets/js/interactive_timelines.js:263-274 | registering one entry adds exactly its name to the registry's keys when the name is truthy, and nothing otherwise |
| EngineSetup.RegisterAll | pr-347/assets/js/interactive_timelines.js:262-277 | registering the entries removes no key; the keys and records are stated by `RegisterAllKeys` and `RegisterAllLastWins` |
| EngineSetup.RegisterAllWellKeyed | pr-347/assets/js/interactive_timelines.js:262-277 | setup keeps the key order equal to the registry's keys, duplicate-free, each record under its own name |
| EngineSetup.RegisterAllKeys | pr-347/assets/js/interactive_timelines.js:262-277 | a name is registered after setup exactly when it was before or some entry has it as a non-empty name |
| EngineSetup.RegisterAllLastWins | pr-347/assets/js/interactive_timelines.js:268-273 | last write wins: a name maps to the record built from the last entry that carries it |
| EngineSetup.UnnamedEntrySkipped | pr-347/assets/js/interactive_timelines.js:263-266 | an entry without a truthy name changes nothing |
| EngineSetup.InitialDraftsMembers | pr-347/assets/js/interactive_timelines.js:279-290 | a message is queued at start-up exactly when some registered engine has a well-formed initial template naming it: sent by that engine, `to` as written, payload resolved on its initial state |
| EngineSetup.InitialOfMembers | pr-347/assets/js/interactive_timelines.js:280-289 | an engine queues a draft exactly when one of its templates yields it |
| EngineSetup.InitialOf | pr-347/assets/js/interactive_timelines.js:280-289 | an engine's initial messages are at most one per template and all sent by that engine |
| EngineSetup.InitialDrafts | pr-347/assets/js/interactive_timelines.js:279-290 | the initial messages of every listed engine in key order; stated by `InitialDraftsMembers` and `InitialDraftsFromRegistered` |
| EngineSetup.InitialDraftsFromRegistered | pr-347/assets/js/interactive_timelines.js:279-290 | every initial message is sent by a registered engine |
| Timeline.Enqueue | pr-347/assets/js/interactive_timelines.js:397-408 | queueing appends at the end of `pendingMessages` and touches no other part of the page state |
| Timeline.EnqueueAppend | pr-347/assets/js/interactive_timelines.js:397-408 | queueing two batches in turn is queueing their concatenation, ids taken in order |
| Timeline.Process | pr-347/assets/js/interactive_timelines.js:411-428 | a delivery keeps the registry's keys, lines and history, only appends to the queue, and is a no-op for an unknown target |
| Timeline.ProcessFrame | pr-347/assets/js/interactive_timelines.js:411-428 | a delivery renames no engine and changes no engine but its target |
| Timeline.FilterNewMembers | pr-347/assets/js/interactive_timelines.js:529-538 | dedupe: a pending message is kept exactly when no dotted line carries its id |
| Timeline.DrawLinesMembers | pr-347/assets/js/interactive_timelines.js:552-557 | a dotted line is drawn exactly for each given message whose two ends are registered engines |
| Timeline.FilterNew | pr-347/assets/js/interactive_timelines.js:536-537 | the dedupe filter over the queue; stated by `FilterNewMembers` |
| Timeline.DrawLines | pr-347/assets/js/interactive_timelines.js:552-557 | the dotted lines drawn for the new messages; stated by `DrawLinesMembers` |
| Timeline.ShowPending | pr-347/assets/js/interactive_timelines.js:526-567 | `updatePendingMessages` keeps the registry and history and only appends lines; the rest is stated by `ShowPendingSpec` |
| Timeline.ShowPendingSpec | pr-347/assets/js/interactive_timelines.js:526-567 | `updatePendingMessages` keeps the registry and history and only adds lines; exactly the new connected messages get a dotted line; the queue is cleared exactly when some pending id is new |
| Timeline.ShowPendingIdempotent | pr-347/assets/js/interactive_timelines.js:526-567 | showing the queue twice in a row is showing it once |
| Timeline.ClickKeepsIdsDistinct | pr-347/assets/js/interactive_timelines.js:877 | clicking keeps at most one animating entry per id |
| Timeline.MarkSolidSpec | pr-347/assets/js/interactive_timelines.js:956-958 | no other line changes, and every line keeps its message |
| Timeline.Complete | pr-347/assets/js/interactive_timelines.js:953-976 | completing an entry appends its message to `messages` and keeps the registry's keys |
| Timeline.CompleteFrame | pr-347/assets/js/interactive_timelines.js:953-976 | completing an entry renames no engine and changes none but the message's target |
| Timeline.TickStep | pr-347/assets/js/interactive_timelines.js:948-976 | one visited entry: completed when due, otherwise nothing changes; stated by `TickWithoutDueIsIdle` and `CompleteFrame` |
| Timeline.TickWorld | pr-347/assets/js/interactive_timelines.js:948-978 | one frame over the entries in order keeps the registry's keys; stated further by `TickDeliversDue` and `SecondTickIsIdle` |
| Timeline.RemainingMembers | pr-347/assets/js/interactive_timelines.js:981 | an entry survives the frame exactly when it was neither completed before nor due now |
| Timeline.Remaining | pr-347/assets/js/interactive_timelines.js:981 | the entries that survive a frame, at most as many as before; stated by `RemainingMembers` |
| Timeline.Uncompleted | pr-347/assets/js/interactive_timelines.js:981 | `animatingMessages.filter(m => !m.completed)`, at most as many entries as before; related to `Remaining` by `UncompletedAfterMarkDue` |
| Timeline.MarkDue | pr-347/assets/js/interactive_timelines.js:948-953 | the entries as the completion loop leaves them, one per entry; related to `Remaining` by `UncompletedAfterMarkDue` |
| Timeline.UncompletedAfterMarkDue | pr-347/assets/js/interactive_timelines.js:948-981 | dropping completed entries after the due ones were marked leaves exactly the surviving entries |
| Timeline.DueMessagesFromDue | pr-347/assets/js/interactive_timelines.js:948-953 | every message a frame delivers is that of an entry whose animation ran for the full duration |
| Timeline.DueMessages | pr-347/assets/js/interactive_timelines.js:948-976 | the messages a frame delivers, at most one per entry; stated by `DueMessagesFromDue`, `TickDeliversDue` and `DueMessagesDistinct` |
| Timeline.TickDeliversDue | pr-347/assets/js/interactive_timelines.js:948-978 | a frame appends exactly the due entries' messages to `messages`, in entry order |
| Timeline.TickWithoutDueIsIdle | pr-347/assets/js/interactive_timelines.js:948-953 | a frame in which no entry is due changes nothing |
| Timeline.SecondTickIsIdle | pr-347/assets/js/interactive_timelines.js:948-981 | completion at most once: a second frame at the same time over the surviving entries delivers nothing and keeps them all |
| Timeline.RemainingOfUndue | pr-347/assets/js/interactive_timelines.js:981 | entries that are neither completed nor due all survive |
| Timeline.DueMessagesDistinct | pr-347/assets/js/interactive_timelines.js:948-976 | with one entry per id, a frame delivers messages with pairwise different ids |
| Timeline.RemainingKeepsIdsDistinct | pr-347/assets/js/interactive_timelines.js:981 | dropping finished entries keeps one entry per id |
| Timeline.TickExtendsLines | pr-347/assets/js/interactive_timelines.js:948-978 | a frame only adds lines and keeps every existing line's message |
| Timeline.ClickAfterDeliveryAccepted | pr-347/assets/js/interactive_timelines.js:875-981 | once a due entry has been delivered and dropped, a new click on its line is accepted again |
| Timeline.ShowPendingKeepsLinesConnected | pr-347/assets/js/interactive_timelines.js:805-808 | showing the queue keeps every line between two registered engines |
| Timeline.TickKeepsLinesConnected | pr-347/assets/js/interactive_timelines.js:948-978 | a frame keeps every line between two registered engines |
| Timeline.LinkedDeliveryTargetsRegistered | pr-347/assets/js/interactive_timelines.js:414-418 | a message delivered from a line always targets a registered engine, so the `not found` branch is not reached from the timeline |
| Timeline.Initialize | pr-347/assets/js/interactive_timelines.js:255-305 | an invalid document changes nothing; initialization never touches `messages` |
| Timeline.ShowPendingOnBlankTimeline | pr-347/assets/js/interactive_timelines.js:526-567 | with no lines yet, every connected pending message is drawn and the queue empties |
| Timeline.InitializeFreshPage | pr-347/assets/js/interactive_timelines.js:255-305 | on a fresh page the registry is the setup's result and the queue ends empty; exactly the initial messages with registered ends are drawn, all joining registered engines |
| Timeline.InitializeKeepsLinks | pr-347/assets/js/interactive_timelines.js:255-305 | initialization keeps the timeline invariants |
| Timeline.MarkCompletedKeepsLinks | pr-347/assets/js/interactive_timelines.js:953-958 | marking an entry completed and its line solid keeps the timeline invariants |
| Timeline.ShowPendingKeepsLinks | pr-347/assets/js/interactive_timelines.js:526-567 | showing the queue keeps the timeline invariants |
| Timeline.TickKeepsAnimsLinked | pr-347/assets/js/interactive_timelines.js:945-981 | after a frame every surviving entry still points at the line of its message |
| Timeline.TickKeepsWellKeyed | pr-347/assets/js/interactive_timelines.js:945-981 | a frame keeps the registry's keys, key order and engine names |
| Simulation.Session.constructor | pr-347/assets/js/interactive_timelines.js:6-9 | the page starts with an empty registry, no lines, an empty queue and no history |
| Simulation.Session.QueueMessage | pr-347/assets/js/interactive_timelines.js:397-408 | the message carries the arguments and the next id, an `undefined` payload becoming `null`, and is appended to the queue |
| Simulation.Session.InitializeApp | pr-347/assets/js/interactive_timelines.js:255-305 | computes `Initialize`: register the entries, queue the initial messages, show them; keeps `Valid()` |
| Simulation.Session.RegisterEngines | pr-347/assets/js/interactive_timelines.js:262-277 | the engine set-up loop computes the setup fold over the entries |
| Simulation.Session.QueueAllInitialMessages | pr-347/assets/js/interactive_timelines.js:279-290 | queues the initial messages of every registered engine in key order |
| Simulation.Session.QueueInitialMessages | pr-347/assets/js/interactive_timelines.js:280-289 | queues the well-formed initial messages of one engine in order |
| Simulation.Session.ProcessMessage | pr-347/assets/js/interactive_timelines.js:411-428 | computes `Process`: snapshot, effect phase, generation phase; keeps `Valid()` |
| Simulation.Session.HandleMessageForEngine | pr-347/assets/js/interactive_timelines.js:431-479 | the registry becomes the effect phase's result; nothing else changes |
| Simulation.Session.GenerateNewMessages | pr-347/assets/js/interactive_timelines.js:482-523 | queues exactly the generation phase's messages, guards on the snapshot and payloads on the live state |
| Simulation.Session.GenerateForHandler | pr-347/assets/js/interactive_timelines.js:489-521 | queues what one handler emits |
| Simulation.Session.QueueTemplates | pr-347/assets/js/interactive_timelines.js:508-519 | queues each well-formed template in order, `"from"` resolved |
| Simulation.Session.UpdatePendingMessages | pr-347/assets/js/interactive_timelines.js:526-567 | computes `ShowPending` |
| Simulation.Session.UnseenPending | pr-347/assets/js/interactive_timelines.js:529-538 | returns the pending messages whose id no dotted line carries, in queue order |
| Simulation.Session.DrawDotted | pr-347/assets/js/interactive_timelines.js:552-557 | appends one dotted line per message with both ends registered, in order; nothing else changes |
| Simulation.Session.ClickLine | pr-347/assets/js/interactive_timelines.js:875-891 | computes `Click` at time `now`; keeps `Valid()` |
| Simulation.Session.AnimateTimeline | pr-347/assets/js/interactive_timelines.js:945-981 | computes `TickWorld` and leaves exactly the surviving entries; keeps `Valid()` |
| Simulation.Session.CompleteDue | pr-347/assets/js/interactive_timelines.js:948-978 | visits every entry in order, completing the due ones |
| Simulation.Session.VisitEntry | pr-347/assets/js/interactive_timelines.js:948-978 | a due entry is marked completed, its line turned solid, its message processed and recorded, and the queue shown; any other entry changes nothing |

## Left out

- Rendering and layout: engine boxes, line positions, tooltips, hover spreading,
  scrolling and the fading out of scrolled lines. Lines are abstracted to their message
  and a dotted/solid flag. As a result, `messages` never loses entries to scrolling
  (`updateMessageLines`), and line elements are never removed.
- Loading the document: the URL parameter, `fetch`, file pickers and error banners.
  `InitializeApp` takes the already parsed document; `None` stands for a document without
  an `engines` array.
- Host-language evaluation of code strings: an oracle parameter. A run that throws reports
  the value its first variable holds at the throw, so reassigning that variable before
  throwing is covered. Code that mutates the `state` object it was handed in place
  (aliasing) is not modelled; the oracle only returns values.
- `JSON.parse(JSON.stringify(...))` for the snapshot: modelled as a plain value copy. The
  lossiness of that round trip for functions, `undefined` fields and special numbers is not
  modelled.
- Numbers are integers, and object field order is kept as listed. JavaScript's ordering of
  integer-like keys first in `Object.values(engines)` is not modelled, so the model iterates
  engines in first-insertion order. Engine names, `to` and `type` fields are strings or
  absent; other JSON types there are not modelled.
- Timing: `Date.now()` is the `now` argument, and `requestAnimationFrame` is the caller
  invoking `AnimateTimeline` repeatedly. Ids come from the `idOf` supply; their uniqueness
  is not assumed.
- A completed message's line can be clicked again after its entry was dropped, and the
  message is then delivered again (`ClickAfterDeliveryAccepted`). Whether the page's
  stylesheet prevents this click on a solid line is not part of this model.
- `null` entries: a `null` element of `engines`, `messageHandlers`, `generateMessages` or
  `initialMessages` makes lines 263, 445, 509 or 281 throw a `TypeError`. Thrown inside
  `animateTimeline` (line 967), such an error skips `requestAnimationFrame` (line 989), so
  every later delivery stops. The model's record types have no such entries, so this
  failure is not modelled.
- Prototype keys: `engines[to]` (lines 414, 432, 483) also finds inherited members of
  `Object.prototype`. For `to = "constructor"` the source does not take the
  `not found` branch and throws at line 421, while `Rules.Deliver` is a no-op. An engine
  named `__proto__` replaces the registry's prototype at line 268 instead of becoming a key,
  so lines 279 and 339 never see it, while `EngineSetup.RegisterAll` registers it. The
  registry is modelled as a plain map.
- Rules.SelectedHandlerGenerates: the oracle `run` is a function, so a guard evaluated
  twice on the same context gives the same answer (lines 447 and 495). This lemma relies on
  that. Guards that read `Math.random()` or `Date.now()`, or globals they write themselves,
  can answer differently at the two sites; that nondeterminism is not modelled.
- The other files of the repository (the bibliography script, `extra.js`, the Rust
  message types) are not part of this model.
