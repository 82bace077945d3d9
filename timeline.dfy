/**
 * The session state around the delivery step, as values: the pending queue with its id
 * supply, the message lines on the timeline (dotted until delivered), the delivered
 * history, and the animation bookkeeping that decides when a message is delivered.
 */
module Timeline {
  import opened Json
  import opened Evaluator
  import opened Rules
  import opened EngineSetup
  import opened Seqs

  /** `ANIMATION_DURATION`, in milliseconds. */
  const AnimationDuration: int := 1500

  /** The source of message ids (`Date.now()` plus a random suffix); not assumed injective. */
  type IdSupply = nat -> string

  /** A message line on the timeline: dotted while waiting for a click, solid once delivered. */
  datatype Line = Line(msg: Message, dotted: bool)

  /** An entry of `animatingMessages`: the message, its line, the click time and the `completed` flag. */
  datatype Anim = Anim(msg: Message, line: nat, startTime: int, completed: bool)

  /**
   * Everything but `animatingMessages`: the registry with its key order, `pendingMessages`,
   * the lines drawn so far, the solid-message history `messages`, and ids issued so far.
   */
  datatype World = World(
    engines: Registry,
    order: seq<string>,
    pending: seq<Message>,
    lines: seq<Line>,
    messages: seq<Message>,
    issued: nat)

  /** The message `queueMessage` builds from a draft and a fresh id. */
  function Stamp1(d: Draft, id: string): Message {
    Message(d.from, d.to, d.msgType, d.payload, id)
  }

  /** Drafts queued one after the other, the k-th taking the k-th next id. */
  function Stamp(idOf: IdSupply, ds: seq<Draft>, k: nat): seq<Message> {
    seq(|ds|, i requires 0 <= i < |ds| => Stamp1(ds[i], idOf(k + i)))
  }

  lemma StampAppend(idOf: IdSupply, a: seq<Draft>, b: seq<Draft>, k: nat)
    ensures Stamp(idOf, a + b, k) == Stamp(idOf, a, k) + Stamp(idOf, b, k + |a|)
  {
  }

  /** Queue a batch of drafts at the end of `pendingMessages`. */
  function Enqueue(idOf: IdSupply, w: World, ds: seq<Draft>): (r: World)
    ensures r.engines == w.engines && r.order == w.order && r.lines == w.lines && r.messages == w.messages
    ensures |r.pending| == |w.pending| + |ds| && r.pending[..|w.pending|] == w.pending
  {
    w.(pending := w.pending + Stamp(idOf, ds, w.issued), issued := w.issued + |ds|)
  }

  /** Queueing one more draft after a batch. */
  lemma EnqueueSnoc(idOf: IdSupply, w: World, ds: seq<Draft>, d: Draft)
    ensures var q := Enqueue(idOf, w, ds);
      Enqueue(idOf, w, ds + [d]) == q.(pending := q.pending + [Stamp1(d, idOf(q.issued))], issued := q.issued + 1)
  {
    StampAppend(idOf, ds, [d], w.issued);
  }

  /** Queueing two batches one after the other is queueing their concatenation. */
  lemma EnqueueAppend(idOf: IdSupply, w: World, a: seq<Draft>, b: seq<Draft>)
    ensures Enqueue(idOf, Enqueue(idOf, w, a), b) == Enqueue(idOf, w, a + b)
  {
    StampAppend(idOf, a, b, w.issued);
  }

  /** `processMessage` on the world: apply the delivery and queue what it generated. */
  function Process(run: Oracle, idOf: IdSupply, w: World, m: Message): (r: World)
    ensures r.order == w.order && r.lines == w.lines && r.messages == w.messages
    ensures r.engines.Keys == w.engines.Keys
    ensures m.to !in w.engines ==> r == w
    ensures |r.pending| >= |w.pending| && r.pending[..|w.pending|] == w.pending
  {
    var d := Deliver(run, w.engines, m);
    Enqueue(idOf, w.(engines := d.registry), d.generated)
  }

  /** A delivery touches no engine but its target, and renames nothing. */
  lemma ProcessFrame(run: Oracle, idOf: IdSupply, w: World, m: Message, n: string)
    requires n in w.engines
    ensures var r := Process(run, idOf, w, m);
      r.engines[n].name == w.engines[n].name && (n != m.to ==> r.engines[n] == w.engines[n])
  {
    ApplyEffectFrame(run, w.engines, m, n);
  }

  /** The ids of the lines that are still dotted (`document.querySelectorAll('.dotted-line')`). */
  function DottedIds(lines: seq<Line>): set<string> {
    set i | 0 <= i < |lines| && lines[i].dotted :: lines[i].msg.id
  }

  /** The pending messages whose id is not already shown by a dotted line, in queue order. */
  function FilterNew(ms: seq<Message>, ids: set<string>): seq<Message> {
    ConcatMap((x: Message) => if x.id !in ids then [x] else [], ms)
  }

  lemma FilterNewSnoc(ms: seq<Message>, i: nat, ids: set<string>)
    requires i < |ms|
    ensures FilterNew(ms[..i + 1], ids) == FilterNew(ms[..i], ids) + (if ms[i].id !in ids then [ms[i]] else [])
  {
    assert ms[..i + 1][..i] == ms[..i];
  }

  /** The dedupe filter keeps a message exactly when it is pending and its id is not shown. */
  lemma FilterNewMembers(ms: seq<Message>, ids: set<string>, x: Message)
    ensures x in FilterNew(ms, ids) <==> x in ms && x.id !in ids
  {
    ConcatMapMembers((x: Message) => if x.id !in ids then [x] else [], ms, x);
  }

  /** Both ends of a message have a timeline line, i.e. are registered engines. */
  predicate Connected(x: Message, reg: Registry) {
    x.from in reg && x.to in reg
  }

  /** `createMessageLine(..., isDotted = true)` for each message; it draws nothing when an end is unknown. */
  function DrawLines(ms: seq<Message>, reg: Registry): seq<Line> {
    ConcatMap((x: Message) => if Connected(x, reg) then [Line(x, true)] else [], ms)
  }

  lemma DrawLinesSnoc(ms: seq<Message>, i: nat, reg: Registry)
    requires i < |ms|
    ensures DrawLines(ms[..i + 1], reg) == DrawLines(ms[..i], reg) + (if Connected(ms[i], reg) then [Line(ms[i], true)] else [])
  {
    assert ms[..i + 1][..i] == ms[..i];
  }

  /** A line is drawn exactly for each given message whose two ends are registered. */
  lemma DrawLinesMembers(ms: seq<Message>, reg: Registry, l: Line)
    ensures l in DrawLines(ms, reg) <==> l.dotted && l.msg in ms && Connected(l.msg, reg)
  {
    ConcatMapMembers((x: Message) => if Connected(x, reg) then [Line(x, true)] else [], ms, l);
  }

  /**
   * `updatePendingMessages`: nothing happens when the queue is empty or every pending id
   * is already shown; otherwise the new ones are drawn as dotted lines and the queue is cleared.
   */
  function ShowPending(w: World): (r: World)
    ensures r.engines == w.engines && r.messages == w.messages
    ensures |w.lines| <= |r.lines| && r.lines[..|w.lines|] == w.lines
  {
    if |w.pending| == 0 then w
    else
      var unseen := FilterNew(w.pending, DottedIds(w.lines));
      if |unseen| == 0 then w
      else w.(lines := w.lines + DrawLines(unseen, w.engines), pending := [])
  }

  /**
   * What `updatePendingMessages` guarantees: the registry and history are untouched, lines
   * are only added, exactly the connected pending messages whose id no dotted line shows
   * get a dotted line, and the queue is cleared exactly when some pending id is new.
   */
  lemma ShowPendingSpec(w: World)
    ensures var r := ShowPending(w);
      && r.engines == w.engines && r.order == w.order && r.messages == w.messages && r.issued == w.issued
      && |r.lines| >= |w.lines| && r.lines[..|w.lines|] == w.lines
      && r.pending == (if exists x :: x in w.pending && x.id !in DottedIds(w.lines) then [] else w.pending)
      && (forall l :: l in r.lines[|w.lines|..] ==>
            l.dotted && l.msg in w.pending && l.msg.id !in DottedIds(w.lines) && Connected(l.msg, w.engines))
      && (forall x :: x in w.pending && x.id !in DottedIds(w.lines) && Connected(x, w.engines) ==>
            Line(x, true) in r.lines[|w.lines|..])
  {
    var ids := DottedIds(w.lines);
    var unseen := FilterNew(w.pending, ids);
    forall x ensures x in unseen <==> x in w.pending && x.id !in ids {
      FilterNewMembers(w.pending, ids, x);
    }
    if |w.pending| > 0 && |unseen| > 0 {
      var r := ShowPending(w);
      assert r.lines[|w.lines|..] == DrawLines(unseen, w.engines);
      forall l ensures l in DrawLines(unseen, w.engines) <==> l.dotted && l.msg in unseen && Connected(l.msg, w.engines) {
        DrawLinesMembers(unseen, w.engines, l);
      }
    }
    if |unseen| > 0 {
      assert unseen[0] in unseen;
    }
  }

  /** Showing pending messages twice in a row is the same as showing them once. */
  lemma ShowPendingIdempotent(w: World)
    ensures ShowPending(ShowPending(w)) == ShowPending(w)
  {
  }

  /** `animatingMessages.find(m => m.id === id)` finds an entry. */
  predicate IsAnimating(anims: seq<Anim>, id: string) {
    exists a :: a in anims && a.msg.id == id
  }

  /** The click handler of dotted line `k`: ignored while its id is animating, else an entry is added. */
  function Click(w: World, anims: seq<Anim>, k: nat, now: int): (r: seq<Anim>)
    requires k < |w.lines|
    ensures r == anims || r == anims + [Anim(w.lines[k].msg, k, now, false)]
    ensures r == anims <==> IsAnimating(anims, w.lines[k].msg.id)
  {
    if IsAnimating(anims, w.lines[k].msg.id) then anims
    else anims + [Anim(w.lines[k].msg, k, now, false)]
  }

  /** At most one animating entry per message id. */
  ghost predicate DistinctIds(anims: seq<Anim>) {
    forall i, j :: 0 <= i < j < |anims| ==> anims[i].msg.id != anims[j].msg.id
  }

  lemma ClickKeepsIdsDistinct(w: World, anims: seq<Anim>, k: nat, now: int)
    requires k < |w.lines| && DistinctIds(anims)
    ensures DistinctIds(Click(w, anims, k, now))
  {
    var r := Click(w, anims, k, now);
    if r != anims {
      forall i, j | 0 <= i < j < |r| ensures r[i].msg.id != r[j].msg.id {
        if j == |anims| {
          assert r[i] in anims;
        }
      }
    }
  }

  /** The entry is not yet completed and its animation has run for the full duration. */
  predicate Due(e: Anim, now: int) {
    !e.completed && now - e.startTime >= AnimationDuration
  }

  /** Turn line `k` solid (the class list swap); other lines are untouched. */
  function MarkSolid(lines: seq<Line>, k: nat): (r: seq<Line>)
    ensures |r| == |lines|
    ensures k < |lines| ==> !r[k].dotted && r[k].msg == lines[k].msg
  {
    if k < |lines| then lines[k := lines[k].(dotted := false)] else lines
  }

  /** Turning a line solid keeps every line's message and leaves the other lines as they were. */
  lemma MarkSolidSpec(lines: seq<Line>, k: nat)
    ensures var r := MarkSolid(lines, k);
      && (forall i :: 0 <= i < |lines| ==> r[i].msg == lines[i].msg)
      && (forall i :: 0 <= i < |lines| && i != k ==> r[i] == lines[i])
  {
  }

  /**
   * Completion of one entry in `animateTimeline`: its line turns solid, the message is
   * processed, appended to the history, and the pending queue is shown.
   */
  function Complete(run: Oracle, idOf: IdSupply, w: World, e: Anim): (r: World)
    ensures r.messages == w.messages + [e.msg]
    ensures r.engines.Keys == w.engines.Keys
  {
    var w1 := w.(lines := MarkSolid(w.lines, e.line));
    var w2 := Process(run, idOf, w1, e.msg);
    ShowPending(w2.(messages := w2.messages + [e.msg]))
  }

  /** Completing an entry renames no engine and touches none but the message's target. */
  lemma CompleteFrame(run: Oracle, idOf: IdSupply, w: World, e: Anim, n: string)
    requires n in w.engines
    ensures var r := Complete(run, idOf, w, e);
      r.engines[n].name == w.engines[n].name && (n != e.msg.to ==> r.engines[n] == w.engines[n])
  {
    ProcessFrame(run, idOf, w.(lines := MarkSolid(w.lines, e.line)), e.msg, n);
  }

  /** One entry visited by `animateTimeline`: completed when due, otherwise nothing happens. */
  function TickStep(run: Oracle, idOf: IdSupply, w: World, e: Anim, now: int): World {
    if Due(e, now) then Complete(run, idOf, w, e) else w
  }

  /** The world after one `animateTimeline` frame at time `now`, entries visited in order. */
  function TickWorld(run: Oracle, idOf: IdSupply, w: World, anims: seq<Anim>, now: int): (r: World)
    ensures r.engines.Keys == w.engines.Keys
  {
    if |anims| == 0 then w
    else TickStep(run, idOf, TickWorld(run, idOf, w, anims[..|anims| - 1], now), anims[|anims| - 1], now)
  }

  /** One more entry visited by the frame. */
  lemma TickWorldStep(run: Oracle, idOf: IdSupply, w: World, anims: seq<Anim>, i: nat, now: int)
    requires i < |anims|
    ensures TickWorld(run, idOf, w, anims[..i + 1], now)
      == TickStep(run, idOf, TickWorld(run, idOf, w, anims[..i], now), anims[i], now)
  {
    assert anims[..i + 1][..i] == anims[..i];
  }

  /** `animatingMessages` after the frame: entries neither completed before nor due now. */
  function Remaining(anims: seq<Anim>, now: int): (r: seq<Anim>)
    ensures |r| <= |anims|
  {
    if |anims| == 0 then []
    else
      var e := anims[|anims| - 1];
      Remaining(anims[..|anims| - 1], now) + (if !e.completed && !Due(e, now) then [e] else [])
  }

  /** An entry survives the frame exactly when it was neither completed nor due. */
  lemma {:induction false} RemainingMembers(anims: seq<Anim>, now: int, e: Anim)
    ensures e in Remaining(anims, now) <==> e in anims && !e.completed && !Due(e, now)
  {
    if |anims| > 0 {
      RemainingMembers(anims[..|anims| - 1], now, e);
      assert anims == anims[..|anims| - 1] + [anims[|anims| - 1]];
    }
  }

  /** `animatingMessages.filter(m => !m.completed)`. */
  function Uncompleted(anims: seq<Anim>): (r: seq<Anim>)
    ensures |r| <= |anims|
  {
    if |anims| == 0 then []
    else
      var e := anims[|anims| - 1];
      Uncompleted(anims[..|anims| - 1]) + (if !e.completed then [e] else [])
  }

  /** An entry after its visit: `completed` is set when it was due. */
  function Mark(e: Anim, now: int): Anim {
    if Due(e, now) then e.(completed := true) else e
  }

  /** The entries as the completion loop leaves them: each due entry is marked completed. */
  function MarkDue(anims: seq<Anim>, now: int): (r: seq<Anim>)
    ensures |r| == |anims|
  {
    if |anims| == 0 then []
    else MarkDue(anims[..|anims| - 1], now) + [Mark(anims[|anims| - 1], now)]
  }

  /** Visiting entry `i` extends the marked prefix by one. */
  lemma MarkDueStep(anims: seq<Anim>, i: nat, now: int)
    requires i < |anims|
    ensures (MarkDue(anims[..i], now) + anims[i..])[i := Mark(anims[i], now)]
      == MarkDue(anims[..i + 1], now) + anims[i + 1..]
  {
    assert anims[..i + 1][..i] == anims[..i];
  }

  /** Dropping the completed entries after marking the due ones keeps exactly `Remaining`. */
  lemma {:induction false} UncompletedAfterMarkDue(anims: seq<Anim>, now: int)
    ensures Uncompleted(MarkDue(anims, now)) == Remaining(anims, now)
  {
    if |anims| > 0 {
      var n := |anims| - 1;
      assert MarkDue(anims, now)[..n] == MarkDue(anims[..n], now);
      UncompletedAfterMarkDue(anims[..n], now);
    }
  }

  /** The messages a frame delivers, in the order of their entries. */
  function DueMessages(anims: seq<Anim>, now: int): (r: seq<Message>)
    ensures |r| <= |anims|
  {
    if |anims| == 0 then []
    else
      var e := anims[|anims| - 1];
      DueMessages(anims[..|anims| - 1], now) + (if Due(e, now) then [e.msg] else [])
  }

  /** Every delivered message is the message of a due entry. */
  lemma {:induction false} DueMessagesFromDue(anims: seq<Anim>, now: int, x: Message)
    requires x in DueMessages(anims, now)
    ensures exists e :: e in anims && Due(e, now) && e.msg == x
  {
    var n := |anims| - 1;
    if x in DueMessages(anims[..n], now) {
      DueMessagesFromDue(anims[..n], now, x);
      var e :| e in anims[..n] && Due(e, now) && e.msg == x;
      assert e in anims;
    } else {
      assert anims[n] in anims;
    }
  }

  /** A frame processes exactly the due entries, each once, in order; nothing else joins the history. */
  lemma {:induction false} TickDeliversDue(run: Oracle, idOf: IdSupply, w: World, anims: seq<Anim>, now: int)
    ensures TickWorld(run, idOf, w, anims, now).messages == w.messages + DueMessages(anims, now)
  {
    if |anims| > 0 {
      TickDeliversDue(run, idOf, w, anims[..|anims| - 1], now);
    }
  }

  /** A frame in which nothing is due changes nothing. */
  lemma {:induction false} TickWithoutDueIsIdle(run: Oracle, idOf: IdSupply, w: World, anims: seq<Anim>, now: int)
    requires forall e :: e in anims ==> !Due(e, now)
    ensures TickWorld(run, idOf, w, anims, now) == w
  {
    if |anims| > 0 {
      assert anims[|anims| - 1] in anims;
      TickWithoutDueIsIdle(run, idOf, w, anims[..|anims| - 1], now);
    }
  }

  /** An entry is processed at most once: a second frame at the same time delivers nothing. */
  lemma SecondTickIsIdle(run: Oracle, idOf: IdSupply, w: World, anims: seq<Anim>, now: int)
    ensures TickWorld(run, idOf, w, Remaining(anims, now), now) == w
    ensures Remaining(Remaining(anims, now), now) == Remaining(anims, now)
  {
    forall e | e in Remaining(anims, now) ensures !e.completed && !Due(e, now) {
      RemainingMembers(anims, now, e);
    }
    TickWithoutDueIsIdle(run, idOf, w, Remaining(anims, now), now);
    RemainingOfUndue(Remaining(anims, now), now);
  }

  lemma {:induction false} RemainingOfUndue(anims: seq<Anim>, now: int)
    requires forall e :: e in anims ==> !e.completed && !Due(e, now)
    ensures Remaining(anims, now) == anims
  {
    if |anims| > 0 {
      assert anims[|anims| - 1] in anims;
      RemainingOfUndue(anims[..|anims| - 1], now);
    }
  }

  /** No two messages of `ms` share an id. */
  ghost predicate MessageIdsDistinct(ms: seq<Message>) {
    forall i, j :: 0 <= i < j < |ms| ==> ms[i].id != ms[j].id
  }

  /** With one entry per id, the messages a frame delivers carry pairwise different ids. */
  lemma {:induction false} DueMessagesDistinct(anims: seq<Anim>, now: int)
    requires DistinctIds(anims)
    ensures MessageIdsDistinct(DueMessages(anims, now))
  {
    if |anims| > 0 {
      var n := |anims| - 1;
      var pre := anims[..n];
      DueMessagesDistinct(pre, now);
      var ds := DueMessages(anims, now);
      var dp := DueMessages(pre, now);
      if Due(anims[n], now) {
        forall i | 0 <= i < |dp| ensures dp[i].id != anims[n].msg.id {
          assert dp[i] in dp;
          DueMessagesFromDue(pre, now, dp[i]);
          var e :| e in pre && Due(e, now) && e.msg == dp[i];
          var k :| 0 <= k < n && pre[k] == e;
          assert anims[k] == e;
        }
        assert ds == dp + [anims[n].msg];
        forall i, j | 0 <= i < j < |ds| ensures ds[i].id != ds[j].id {
          assert ds[i] == dp[i];
          if j < |dp| {
            assert ds[j] == dp[j];
          }
        }
      } else {
        assert ds == dp;
      }
    }
  }

  /** Removing the finished entries keeps one entry per id. */
  lemma {:induction false} RemainingKeepsIdsDistinct(anims: seq<Anim>, now: int)
    requires DistinctIds(anims)
    ensures DistinctIds(Remaining(anims, now))
  {
    if |anims| > 0 {
      var n := |anims| - 1;
      var pre := anims[..n];
      RemainingKeepsIdsDistinct(pre, now);
      var rp := Remaining(pre, now);
      forall i | 0 <= i < |rp| ensures rp[i].msg.id != anims[n].msg.id {
        assert rp[i] in rp;
        RemainingMembers(pre, now, rp[i]);
        var k :| 0 <= k < n && pre[k] == rp[i];
        assert anims[k] == rp[i];
      }
    }
  }

  /** `b` extends `a` with more lines; the lines of `a` keep their messages. */
  ghost predicate LinesExtend(a: seq<Line>, b: seq<Line>) {
    |a| <= |b| && forall i :: 0 <= i < |a| ==> b[i].msg == a[i].msg
  }

  lemma {:induction false} TickExtendsLines(run: Oracle, idOf: IdSupply, w: World, anims: seq<Anim>, now: int)
    ensures LinesExtend(w.lines, TickWorld(run, idOf, w, anims, now).lines)
  {
    if |anims| > 0 {
      var w' := TickWorld(run, idOf, w, anims[..|anims| - 1], now);
      TickExtendsLines(run, idOf, w, anims[..|anims| - 1], now);
      var e := anims[|anims| - 1];
      if Due(e, now) {
        var w1 := w'.(lines := MarkSolid(w'.lines, e.line));
        var w2 := Process(run, idOf, w1, e.msg);
        var r := Complete(run, idOf, w', e);
        MarkSolidSpec(w'.lines, e.line);
        ShowPendingSpec(w2.(messages := w2.messages + [e.msg]));
        assert r == ShowPending(w2.(messages := w2.messages + [e.msg]));
        forall i | 0 <= i < |w.lines| ensures r.lines[i].msg == w.lines[i].msg {
          assert r.lines[..|w2.lines|][i] == w2.lines[i];
        }
      }
    }
  }

  /** Each animating entry points at an existing line that shows its message. */
  ghost predicate AnimsLinked(w: World, anims: seq<Anim>) {
    forall e :: e in anims ==> e.line < |w.lines| && w.lines[e.line].msg == e.msg
  }

  /**
   * The click guard only consults entries still animating: once a message has been
   * delivered and its entry removed, a click on its (now solid) line is accepted again,
   * and the message will be delivered a second time.
   */
  lemma ClickAfterDeliveryAccepted(run: Oracle, idOf: IdSupply, w: World, anims: seq<Anim>, now: int, e: Anim, later: int)
    requires DistinctIds(anims) && AnimsLinked(w, anims)
    requires e in anims && Due(e, now)
    ensures var w' := TickWorld(run, idOf, w, anims, now);
      var anims' := Remaining(anims, now);
      e.line < |w'.lines| && w'.lines[e.line].msg == e.msg &&
      Click(w', anims', e.line, later) == anims' + [Anim(e.msg, e.line, later, false)]
  {
    var w' := TickWorld(run, idOf, w, anims, now);
    var anims' := Remaining(anims, now);
    TickExtendsLines(run, idOf, w, anims, now);
    RemainingMembers(anims, now, e);
    if IsAnimating(anims', e.msg.id) {
      var a :| a in anims' && a.msg.id == e.msg.id;
      RemainingMembers(anims, now, a);
      assert false;
    }
  }

  /** Every line joins two registered engines. */
  ghost predicate LinesConnected(w: World) {
    forall l :: l in w.lines ==> Connected(l.msg, w.engines)
  }

  lemma ShowPendingKeepsLinesConnected(w: World)
    requires LinesConnected(w)
    ensures LinesConnected(ShowPending(w))
  {
    var r := ShowPending(w);
    ShowPendingSpec(w);
    forall l | l in r.lines ensures Connected(l.msg, r.engines) {
      var i :| 0 <= i < |r.lines| && r.lines[i] == l;
      if i < |w.lines| {
        assert r.lines[..|w.lines|][i] == l;
      } else {
        assert r.lines[|w.lines|..][i - |w.lines|] == l;
      }
    }
  }

  lemma {:induction false} TickKeepsLinesConnected(run: Oracle, idOf: IdSupply, w: World, anims: seq<Anim>, now: int)
    requires LinesConnected(w)
    ensures LinesConnected(TickWorld(run, idOf, w, anims, now))
  {
    if |anims| > 0 {
      var w' := TickWorld(run, idOf, w, anims[..|anims| - 1], now);
      TickKeepsLinesConnected(run, idOf, w, anims[..|anims| - 1], now);
      var e := anims[|anims| - 1];
      if Due(e, now) {
        var w1 := w'.(lines := MarkSolid(w'.lines, e.line));
        MarkSolidSpec(w'.lines, e.line);
        forall l | l in w1.lines ensures Connected(l.msg, w1.engines) {
          var i :| 0 <= i < |w1.lines| && w1.lines[i] == l;
          assert w'.lines[i] in w'.lines;
        }
        var w2 := Process(run, idOf, w1, e.msg);
        ShowPendingKeepsLinesConnected(w2.(messages := w2.messages + [e.msg]));
      }
    }
  }

  /**
   * A message delivered by clicking a line always targets a registered engine: the
   * `Engine not found` branch of `processMessage` is not reached through the timeline.
   */
  lemma LinkedDeliveryTargetsRegistered(w: World, anims: seq<Anim>, e: Anim)
    requires LinesConnected(w) && AnimsLinked(w, anims) && e in anims
    ensures e.msg.to in w.engines
  {
    assert w.lines[e.line] in w.lines;
  }

  /** `initializeApp`: an invalid document does nothing; otherwise register, queue initial messages, show them. */
  function Initialize(run: Oracle, idOf: IdSupply, w: World, doc: Option<seq<EngineDecl>>): (r: World)
    ensures doc.None? ==> r == w
    ensures r.messages == w.messages
  {
    match doc
    case None => w
    case Some(ds) =>
      var s := RegisterAll(Setup(w.engines, w.order), ds);
      ShowPending(Enqueue(idOf, w.(engines := s.engines, order := s.order), InitialDrafts(run, s.engines, s.order)))
  }

  /** The empty page before `initializeApp`. */
  function EmptyWorld(): World {
    World(map[], [], [], [], [], 0)
  }

  /** With no line drawn yet, every pending message is new: all connected ones are drawn and the queue empties. */
  lemma ShowPendingOnBlankTimeline(w: World)
    requires w.lines == []
    ensures var r := ShowPending(w);
      && r.pending == []
      && (forall x :: x in w.pending && Connected(x, w.engines) ==> Line(x, true) in r.lines)
      && (forall l :: l in r.lines ==> l.dotted && l.msg in w.pending && Connected(l.msg, w.engines))
  {
    var r := ShowPending(w);
    ShowPendingSpec(w);
    assert DottedIds(w.lines) == {};
    assert r.lines == r.lines[|w.lines|..];
    if w.pending != [] {
      assert w.pending[0] in w.pending;
    }
  }

  /**
   * On a fresh page every well-formed initial message of a registered engine whose target
   * is registered becomes a dotted line, the queue is left empty, and every line joins
   * two registered engines.
   */
  lemma InitializeFreshPage(run: Oracle, idOf: IdSupply, ds: seq<EngineDecl>)
    ensures var r := Initialize(run, idOf, EmptyWorld(), Some(ds));
      var s := RegisterAll(Setup(map[], []), ds);
      var queued := Stamp(idOf, InitialDrafts(run, s.engines, s.order), 0);
      && r.engines == s.engines && r.pending == [] && LinesConnected(r)
      && (forall x :: x in queued && Connected(x, r.engines) ==> Line(x, true) in r.lines)
      && (forall l :: l in r.lines ==> l.dotted && l.msg in queued)
  {
    var s := RegisterAll(Setup(map[], []), ds);
    var w0 := EmptyWorld().(engines := s.engines, order := s.order);
    var w1 := Enqueue(idOf, w0, InitialDrafts(run, s.engines, s.order));
    assert w1.pending == Stamp(idOf, InitialDrafts(run, s.engines, s.order), 0);
    ShowPendingOnBlankTimeline(w1);
  }

  /** Initialization only adds engines and lines, so the timeline invariants survive it. */
  lemma InitializeKeepsLinks(run: Oracle, idOf: IdSupply, w: World, anims: seq<Anim>, doc: Option<seq<EngineDecl>>)
    requires LinesConnected(w) && AnimsLinked(w, anims) && WellKeyed(Setup(w.engines, w.order))
    ensures var r := Initialize(run, idOf, w, doc);
      LinesConnected(r) && AnimsLinked(r, anims) && WellKeyed(Setup(r.engines, r.order))
  {
    if doc.Some? {
      var s := RegisterAll(Setup(w.engines, w.order), doc.value);
      RegisterAllWellKeyed(Setup(w.engines, w.order), doc.value);
      forall n | n in w.engines ensures n in s.engines {
        RegisterAllKeys(Setup(w.engines, w.order), doc.value, n);
      }
      var w1 := Enqueue(idOf, w.(engines := s.engines, order := s.order), InitialDrafts(run, s.engines, s.order));
      assert LinesConnected(w1);
      ShowPendingKeepsLinesConnected(w1);
      var r := ShowPending(w1);
      forall e | e in anims ensures e.line < |r.lines| && r.lines[e.line].msg == e.msg {
        assert r.lines[..|w1.lines|][e.line] == w1.lines[e.line];
      }
    }
  }

  /** Marking entry `i` completed and turning its line solid keeps the timeline invariants. */
  lemma MarkCompletedKeepsLinks(w: World, anims: seq<Anim>, i: nat)
    requires i < |anims| && LinesConnected(w) && AnimsLinked(w, anims) && DistinctIds(anims)
    ensures var w1 := w.(lines := MarkSolid(w.lines, anims[i].line));
      var a1 := anims[i := anims[i].(completed := true)];
      LinesConnected(w1) && AnimsLinked(w1, a1) && DistinctIds(a1)
  {
    var w1 := w.(lines := MarkSolid(w.lines, anims[i].line));
    var a1 := anims[i := anims[i].(completed := true)];
    MarkSolidSpec(w.lines, anims[i].line);
    forall l | l in w1.lines ensures Connected(l.msg, w1.engines) {
      var k :| 0 <= k < |w1.lines| && w1.lines[k] == l;
      assert w.lines[k] in w.lines;
    }
    forall e | e in a1 ensures e.line < |w1.lines| && w1.lines[e.line].msg == e.msg {
      var k :| 0 <= k < |a1| && a1[k] == e;
      assert anims[k] in anims;
    }
  }

  /** Showing the pending queue keeps the timeline invariants. */
  lemma ShowPendingKeepsLinks(w: World, anims: seq<Anim>)
    requires LinesConnected(w) && AnimsLinked(w, anims)
    ensures LinesConnected(ShowPending(w)) && AnimsLinked(ShowPending(w), anims)
  {
    ShowPendingKeepsLinesConnected(w);
    ShowPendingSpec(w);
    var r := ShowPending(w);
    forall e | e in anims ensures e.line < |r.lines| && r.lines[e.line].msg == e.msg {
      assert r.lines[..|w.lines|][e.line] == w.lines[e.line];
    }
  }

  /** After a frame the remaining entries still point at their lines. */
  lemma TickKeepsAnimsLinked(run: Oracle, idOf: IdSupply, w: World, anims: seq<Anim>, now: int)
    requires AnimsLinked(w, anims)
    ensures AnimsLinked(TickWorld(run, idOf, w, anims, now), Remaining(anims, now))
  {
    TickExtendsLines(run, idOf, w, anims, now);
  }

  /** A frame keeps the registry's key order and engine names. */
  lemma {:induction false} TickKeepsWellKeyed(run: Oracle, idOf: IdSupply, w: World, anims: seq<Anim>, now: int)
    requires WellKeyed(Setup(w.engines, w.order))
    ensures var r := TickWorld(run, idOf, w, anims, now);
      WellKeyed(Setup(r.engines, r.order)) && r.engines.Keys == w.engines.Keys
  {
    if |anims| > 0 {
      var w' := TickWorld(run, idOf, w, anims[..|anims| - 1], now);
      TickKeepsWellKeyed(run, idOf, w, anims[..|anims| - 1], now);
      var e := anims[|anims| - 1];
      if Due(e, now) {
        var r := Complete(run, idOf, w', e);
        forall n | n in r.engines ensures r.engines[n].name == n {
          CompleteFrame(run, idOf, w', e, n);
        }
      }
    }
  }
}
