/**
 One session among others. Whatever other connections do between a handler's own steps, they leave that
 handler where it is; so a session whose documents pass their checks gets through every interleaving.
 */
module InterleavedSession {
  import opened Prelude
  import opened Text
  import opened Base64
  import opened Json
  import opened Frames
  import opened Messages
  import opened Snapshots
  import opened Enrollment
  import opened Sessions
  import opened SessionTelemetry
  import opened Receiver
  import opened FrameSizes
  import opened HonestSession

  /** The handler an event belongs to, if it belongs to one that exists. */
  function HandlerOf(e: Event): Option<nat>
  {
    match e
    case Hello(h, _, _, _, _) => Some(h)
    case Authenticate(h, _, _) => Some(h)
    case Telemetry(h, _, _) => Some(h)
    case Finish(h) => Some(h)
    case Drop(h, _) => Some(h)
    case _ => None
  }

  /** Events of other handlers, new connections, and signatures made anywhere. */
  ghost predicate Others(h: nat, events: seq<Event>)
  {
    forall i | 0 <= i < |events| :: HandlerOf(events[i]) != Some(h)
  }

  /** What a handler has written, in order. */
  function FramesOf(written: seq<Frame>, h: nat): seq<Json>
  {
    if written == [] then []
    else
      var n := |written| - 1;
      FramesOf(written[..n], h) + if written[n].handler == h then [written[n].document] else []
  }

  lemma FramesAppended(written: seq<Frame>, f: Frame, h: nat)
    ensures FramesOf(written + [f], h) == FramesOf(written, h) + if f.handler == h then [f.document] else []
  {
    assert (written + [f])[..|written|] == written;
  }

  // ---- Other connections leave a handler alone ----

  ghost predicate Untouched(h: nat, v: World, w: World)
  {
    && h < |v.phases| <= |w.phases| && w.phases[h] == v.phases[h] && v.signed <= w.signed
    && FramesOf(w.written, h) == FramesOf(v.written, h)
    && |v.publications| <= |w.publications|
  }

  /** One step as the receiver's state sees it: it moves one handler, which writes at most one frame. */
  ghost predicate MovesOnly(g: nat, v: World, w: World)
  {
    && g < |v.phases| == |w.phases| && w.signed == v.signed
    && (forall h | 0 <= h < |v.phases| && h != g :: w.phases[h] == v.phases[h])
    && (w.written == v.written || exists d :: w.written == v.written + [Frame(g, d)])
    && |v.publications| <= |w.publications|
  }

  lemma EndMoves(w: World, g: nat, errors: nat)
    requires g < |w.phases|
    ensures MovesOnly(g, w, End(w, g, errors))
  {
  }

  lemma StepMoves(env: Env, w: World, e: Event)
    requires Legal(env, w, e) && HandlerOf(e).Some?
    ensures MovesOnly(HandlerOf(e).value, w, Next(env, w, e))
  {
    EndMoves(w, HandlerOf(e).value, 0);
    EndMoves(w, HandlerOf(e).value, 1);
    if e.Telemetry? {
      TelemetryMoves(env, w, e);
    }
  }

  lemma TelemetryMoves(env: Env, w: World, e: Event)
    requires Legal(env, w, e) && e.Telemetry?
    ensures MovesOnly(e.h, w, Next(env, w, e))
  {
    EndMoves(w, e.h, 1);
  }

  lemma MovedElsewhere(h: nat, g: nat, v: World, w: World)
    requires MovesOnly(g, v, w) && g != h && h < |v.phases|
    ensures Untouched(h, v, w)
  {
    if w.written != v.written {
      var d :| w.written == v.written + [Frame(g, d)];
      FramesAppended(v.written, Frame(g, d), h);
    }
  }

  lemma OtherStep(env: Env, h: nat, w: World, e: Event)
    requires Legal(env, w, e) && HandlerOf(e) != Some(h) && h < |w.phases|
    ensures Untouched(h, w, Next(env, w, e))
  {
    if HandlerOf(e).Some? {
      StepMoves(env, w, e);
      MovedElsewhere(h, HandlerOf(e).value, w, Next(env, w, e));
    }
  }

  lemma {:induction false} OthersLeave(env: Env, h: nat, w: World, events: seq<Event>, final: World)
    requires Reaches(env, w, events, final) && Others(h, events) && h < |w.phases|
    ensures Untouched(h, w, final)
    decreases |events|
  {
    if events != [] {
      OtherStep(env, h, w, events[0]);
      OthersLeave(env, h, Next(env, w, events[0]), events[1..], final);
    }
  }

  // ---- A session's own steps ----

  /** The handler's events after its connection: hello, the device's signature, answer and telemetry. */
  function OwnEvent(h: nat, x: Exchange, k: nat): Event
    requires k < 4
  {
    if k == 0 then Hello(h, x.hello, x.sessionId, x.nonce, x.issued)
    else if k == 1 then HonestSigns(x.key, x.proof)
    else if k == 2 then Authenticate(h, x.answer, x.verified)
    else Telemetry(h, x.envelope, x.received)
  }

  function WrittenBy(c: SessionChallenge, x: Exchange, k: nat): seq<Json>
  {
    if k == 0 then []
    else if k <= 2 then [ChallengeDocument(c)]
    else if k == 3 then [ChallengeDocument(c), ReadyDocument(c.sessionId, c.relayId, x.verified)]
    else [ChallengeDocument(c), ReadyDocument(c.sessionId, c.relayId, x.verified), AckDocument(c.sessionId)]
  }

  /** Handler `h` has been through the first `k` of its events, having written `before` on the connection and then
      what those events write. */
  ghost predicate Stage(v: World, h: nat, c: SessionChallenge, x: Exchange, before: seq<Json>, k: nat)
  {
    && h < |v.phases| && FramesOf(v.written, h) == before + WrittenBy(c, x, k)
    && (if k == 0 then v.phases[h] == AwaitingHello
        else if k <= 2 then v.phases[h] == Challenged(c)
        else if k == 3 then v.phases[h] == Open(c, x.proof)
        else v.phases[h] == Acknowledging(c, x.proof))
    && (k == 2 ==> (x.key, Payload(x.proof)) in v.signed)
  }

  lemma StageKept(v: World, w: World, h: nat, c: SessionChallenge, x: Exchange, before: seq<Json>, k: nat)
    requires Stage(v, h, c, x, before, k) && Untouched(h, v, w)
    ensures Stage(w, h, c, x, before, k)
  {
  }

  ghost predicate StepsTo(env: Env, v: World, e: Event, w: World)
  {
    Legal(env, v, e) && Next(env, v, e) == w
  }

  lemma HelloStep(env: Env, v: World, h: nat, c: SessionChallenge, x: Exchange, snapshot: Json)
    requires Sound(env, x, c, snapshot) && h < |v.phases| && v.phases[h] == AwaitingHello
    requires FreshSession(v, x.sessionId)
    ensures StepsTo(env, v, Hello(h, x.hello, x.sessionId, x.nonce, x.issued), SendChallenge(v, h, x.hello, c))
  {
    var hello := Hello(h, x.hello, x.sessionId, x.nonce, x.issued);
    assert Legal(env, v, hello);
    assert Next(env, v, hello) == SendChallenge(v, h, x.hello, c);
  }

  lemma AnswerStep(env: Env, v: World, h: nat, c: SessionChallenge, x: Exchange)
    requires h < |v.phases| && v.phases[h] == Challenged(c) && WellFormed(x.answer)
    requires AuthVerdict(env, {(x.key, Payload(x.proof))}, x.answer, c, x.verified) == Some(x.proof)
    requires (x.key, Payload(x.proof)) in v.signed
    ensures StepsTo(env, v, Authenticate(h, x.answer, x.verified), Admit(v, h, c, x.proof, x.verified))
  {
    var auth := Authenticate(h, x.answer, x.verified);
    VerdictGrows(env, {(x.key, Payload(x.proof))}, v.signed, x.answer, c, x.verified);
    assert Legal(env, v, auth);
    assert Next(env, v, auth) == Admit(v, h, c, x.proof, x.verified);
  }

  function PublishedIn(h: nat, c: SessionChallenge, x: Exchange, snapshot: Json): Publication
  {
    PublicationOf(h, c, x.proof, SnapshotOf(x.envelope), snapshot, x.received)
  }

  lemma TelemetryStep(env: Env, v: World, h: nat, c: SessionChallenge, x: Exchange, snapshot: Json)
    requires h < |v.phases| && v.phases[h] == Open(c, x.proof) && WellFormed(x.envelope) && c.audience in env.devices
    requires AcceptTelemetry(env.lower, x.envelope, c.sessionId) == Some(snapshot)
    ensures StepsTo(env, v, Telemetry(h, x.envelope, x.received), Store(v, h, PublishedIn(h, c, x, snapshot)))
  {
    var send := Telemetry(h, x.envelope, x.received);
    assert Legal(env, v, send);
    assert Next(env, v, send) == Store(v, h, PublishedIn(h, c, x, snapshot));
  }

  lemma MovesStage(v: World, h: nat, c: SessionChallenge, x: Exchange, before: seq<Json>)
    requires h < |v.phases|
    ensures Stage(v, h, c, x, before, 0) ==> Stage(SendChallenge(v, h, x.hello, c), h, c, x, before, 1)
    ensures Stage(v, h, c, x, before, 2) ==> Stage(Admit(v, h, c, x.proof, x.verified), h, c, x, before, 3)
  {
    FramesAppended(v.written, Frame(h, ChallengeDocument(c)), h);
    FramesAppended(v.written, Frame(h, ReadyDocument(c.sessionId, c.relayId, x.verified)), h);
  }

  lemma StoreStage(v: World, h: nat, c: SessionChallenge, x: Exchange, snapshot: Json, before: seq<Json>)
    requires Stage(v, h, c, x, before, 3)
    ensures Stage(Store(v, h, PublishedIn(h, c, x, snapshot)), h, c, x, before, 4)
  {
    FramesAppended(v.written, Frame(h, AckDocument(c.sessionId)), h);
  }

  /** Handler `h` has taken its step from stage `k`, and counted no error. */
  ghost predicate Advances(v: World, final: World, h: nat, c: SessionChallenge, x: Exchange, snapshot: Json,
                           before: seq<Json>, k: nat)
  {
    && Stage(final, h, c, x, before, k + 1) && final.errors == v.errors
    && (if k < 3 then final.publications == v.publications
        else h < |v.phases| && final == Store(v, h, PublishedIn(h, c, x, snapshot)))
  }

  function OwnTarget(v: World, h: nat, c: SessionChallenge, x: Exchange, snapshot: Json, k: nat): World
    requires h < |v.phases|
  {
    if k == 0 then SendChallenge(v, h, x.hello, c)
    else if k == 1 then v.(signed := v.signed + {(x.key, Payload(x.proof))}, log := v.log + {(x.key, x.proof)})
    else if k == 2 then Admit(v, h, c, x.proof, x.verified)
    else Store(v, h, PublishedIn(h, c, x, snapshot))
  }

  lemma SignStep(env: Env, v: World, h: nat, c: SessionChallenge, x: Exchange, snapshot: Json)
    requires Sound(env, x, c, snapshot) && h < |v.phases|
    ensures StepsTo(env, v, HonestSigns(x.key, x.proof), OwnTarget(v, h, c, x, snapshot, 1))
  {
    assert Legal(env, v, HonestSigns(x.key, x.proof));
  }

  lemma OwnStepsTo(env: Env, v: World, h: nat, c: SessionChallenge, x: Exchange, snapshot: Json, before: seq<Json>,
                   k: nat)
    requires Sound(env, x, c, snapshot) && k < 4 && Stage(v, h, c, x, before, k)
    requires k == 0 ==> FreshSession(v, x.sessionId)
    ensures StepsTo(env, v, OwnEvent(h, x, k), OwnTarget(v, h, c, x, snapshot, k))
  {
    if k == 0 {
      HelloStep(env, v, h, c, x, snapshot);
    } else if k == 1 {
      SignStep(env, v, h, c, x, snapshot);
    } else if k == 2 {
      AnswerStep(env, v, h, c, x);
    } else {
      TelemetryStep(env, v, h, c, x, snapshot);
    }
  }

  lemma OwnAdvances(v: World, h: nat, c: SessionChallenge, x: Exchange, snapshot: Json, before: seq<Json>, k: nat)
    requires k < 4 && Stage(v, h, c, x, before, k)
    ensures Advances(v, OwnTarget(v, h, c, x, snapshot, k), h, c, x, snapshot, before, k)
  {
    MovesStage(v, h, c, x, before);
    if k == 3 {
      StoreStage(v, h, c, x, snapshot, before);
    }
  }

  /** Wherever other connections have left the receiver, the handler's next step is possible, counts no error, and
      takes it to the next stage; the hello needs its session id to be fresh at that moment. */
  lemma OwnStep(env: Env, v: World, h: nat, c: SessionChallenge, x: Exchange, snapshot: Json, before: seq<Json>, k: nat)
    returns (final: World)
    requires Sound(env, x, c, snapshot) && k < 4 && Stage(v, h, c, x, before, k)
    requires k == 0 ==> FreshSession(v, x.sessionId)
    ensures StepsTo(env, v, OwnEvent(h, x, k), final) && Advances(v, final, h, c, x, snapshot, before, k)
  {
    final := OwnTarget(v, h, c, x, snapshot, k);
    OwnStepsTo(env, v, h, c, x, snapshot, before, k);
    OwnAdvances(v, h, c, x, snapshot, before, k);
  }

  // ---- The whole session ----

  /** A connection and the first `k` of its handler's events, with events of others before each of them. */
  function EventsAmong(h: nat, x: Exchange, gaps: seq<seq<Event>>, k: nat): seq<Event>
    requires k <= 4 && k <= |gaps|
  {
    if k == 0 then [Connect] else EventsAmong(h, x, gaps, k - 1) + gaps[k - 1] + [OwnEvent(h, x, k - 1)]
  }

  ghost predicate OthersBetween(h: nat, gaps: seq<seq<Event>>)
  {
    forall i | 0 <= i < |gaps| :: Others(h, gaps[i])
  }

  lemma {:induction false} ReachesSplit(env: Env, w: World, a: seq<Event>, b: seq<Event>, final: World)
    returns (mid: World)
    requires Reaches(env, w, a + b, final)
    ensures Reaches(env, w, a, mid) && Reaches(env, mid, b, final)
    decreases |a|
  {
    if a == [] {
      assert a + b == b;
      mid := w;
    } else {
      assert (a + b)[1..] == a[1..] + b;
      mid := ReachesSplit(env, Next(env, w, a[0]), a[1..], b, final);
    }
  }

  lemma {:induction false} ReachesJoin(env: Env, w: World, a: seq<Event>, mid: World, b: seq<Event>, final: World)
    requires Reaches(env, w, a, mid) && Reaches(env, mid, b, final)
    ensures Reaches(env, w, a + b, final)
    decreases |a|
  {
    if a == [] {
      assert a + b == b;
    } else {
      assert (a + b)[1..] == a[1..] + b;
      ReachesJoin(env, Next(env, w, a[0]), a[1..], mid, b, final);
    }
  }

  lemma OneEvent(env: Env, w: World, e: Event, final: World)
    ensures Reaches(env, w, [e], final) <==> StepsTo(env, w, e, final)
  {
    if Legal(env, w, e) {
      assert [e][1..] == [];
    }
  }

  /** A run of the session on the next connection up to its `k`-th event. */
  ghost predicate Progresses(env: Env, w: World, x: Exchange, gaps: seq<seq<Event>>, k: nat, final: World)
  {
    && k <= 4 && k <= |gaps| && OthersBetween(|w.phases|, gaps)
    && Reaches(env, w, EventsAmong(|w.phases|, x, gaps, k), final)
  }

  /** What such a run does to the handler. */
  ghost predicate Arrives(w: World, c: SessionChallenge, x: Exchange, k: nat, final: World)
  {
    Stage(final, |w.phases|, c, x, FramesOf(w.written, |w.phases|), k) && |w.publications| <= |final.publications|
  }

  lemma ConnectArrives(env: Env, w: World, c: SessionChallenge, x: Exchange, gaps: seq<seq<Event>>, final: World)
    requires Progresses(env, w, x, gaps, 0, final)
    ensures Arrives(w, c, x, 0, final)
  {
    OneEvent(env, w, Connect, final);
  }

  ghost predicate Gapped(env: Env, early: World, h: nat, gaps: seq<seq<Event>>, k: nat, v: World)
  {
    k < |gaps| && Others(h, gaps[k]) && Reaches(env, early, gaps[k], v)
  }

  /** The last own event of a session so far, and the state it found. */
  lemma LastOwn(env: Env, w: World, x: Exchange, gaps: seq<seq<Event>>, k: nat, final: World)
    returns (early: World, v: World)
    requires k > 0 && Progresses(env, w, x, gaps, k, final)
    ensures Progresses(env, w, x, gaps, k - 1, early) && Gapped(env, early, |w.phases|, gaps, k - 1, v)
    ensures StepsTo(env, v, OwnEvent(|w.phases|, x, k - 1), final)
  {
    var h := |w.phases|;
    v := ReachesSplit(env, w, EventsAmong(h, x, gaps, k - 1) + gaps[k - 1], [OwnEvent(h, x, k - 1)], final);
    OneEvent(env, v, OwnEvent(h, x, k - 1), final);
    early := ReachesSplit(env, w, EventsAmong(h, x, gaps, k - 1), gaps[k - 1], v);
  }

  lemma EventArrives(env: Env, w: World, c: SessionChallenge, x: Exchange, snapshot: Json, gaps: seq<seq<Event>>,
                     k: nat, early: World, v: World, final: World)
    requires Sound(env, x, c, snapshot) && k < 4 && Arrives(w, c, x, k, early)
    requires Gapped(env, early, |w.phases|, gaps, k, v) && StepsTo(env, v, OwnEvent(|w.phases|, x, k), final)
    ensures Arrives(w, c, x, k + 1, final)
  {
    OwnAfterGap(env, early, v, |w.phases|, c, x, snapshot, FramesOf(w.written, |w.phases|), gaps[k], k, final);
  }

  /** Whatever happens on other connections in between, the handler is where its own events have brought it. */
  lemma {:induction false} StageReached(env: Env, w: World, c: SessionChallenge, x: Exchange, snapshot: Json,
                                        gaps: seq<seq<Event>>, k: nat, final: World)
    requires Sound(env, x, c, snapshot) && Progresses(env, w, x, gaps, k, final)
    ensures Arrives(w, c, x, k, final)
    decreases k, 1
  {
    if k == 0 {
      ConnectArrives(env, w, c, x, gaps, final);
    } else {
      LaterStage(env, w, c, x, snapshot, gaps, k, final);
    }
  }

  lemma {:induction false} LaterStage(env: Env, w: World, c: SessionChallenge, x: Exchange, snapshot: Json,
                                      gaps: seq<seq<Event>>, k: nat, final: World)
    requires k > 0 && Sound(env, x, c, snapshot) && Progresses(env, w, x, gaps, k, final)
    ensures Arrives(w, c, x, k, final)
    decreases k, 0
  {
    var early, v := LastOwn(env, w, x, gaps, k, final);
    StageReached(env, w, c, x, snapshot, gaps, k - 1, early);
    EventArrives(env, w, c, x, snapshot, gaps, k - 1, early, v, final);
  }

  lemma FreshAtHello(env: Env, v: World, h: nat, x: Exchange, k: nat, final: World)
    requires k < 4 && StepsTo(env, v, OwnEvent(h, x, k), final)
    ensures k == 0 ==> FreshSession(v, x.sessionId)
  {
  }

  lemma GapLeaves(env: Env, early: World, v: World, h: nat, c: SessionChallenge, x: Exchange, before: seq<Json>,
                  gap: seq<Event>, k: nat)
    requires Stage(early, h, c, x, before, k) && Others(h, gap) && Reaches(env, early, gap, v)
    ensures Stage(v, h, c, x, before, k) && |early.publications| <= |v.publications|
  {
    OthersLeave(env, h, early, gap, v);
    StageKept(early, v, h, c, x, before, k);
  }

  lemma StepsOnce(env: Env, v: World, e: Event, a: World, b: World)
    requires StepsTo(env, v, e, a) && StepsTo(env, v, e, b)
    ensures a == b
  {
  }

  lemma OwnAfterGap(env: Env, early: World, v: World, h: nat, c: SessionChallenge, x: Exchange, snapshot: Json,
                    before: seq<Json>, gap: seq<Event>, k: nat, final: World)
    requires Sound(env, x, c, snapshot) && k < 4 && Stage(early, h, c, x, before, k)
    requires Others(h, gap) && Reaches(env, early, gap, v) && StepsTo(env, v, OwnEvent(h, x, k), final)
    ensures |early.publications| <= |v.publications| && Advances(v, final, h, c, x, snapshot, before, k)
  {
    GapLeaves(env, early, v, h, c, x, before, gap, k);
    FreshAtHello(env, v, h, x, k, final);
    var next := OwnStep(env, v, h, c, x, snapshot, before, k);
    StepsOnce(env, v, OwnEvent(h, x, k), next, final);
  }

  /** And its next event is possible, and counts no error: nothing others do blocks a session. */
  lemma SessionIsNotBlocked(env: Env, w: World, c: SessionChallenge, x: Exchange, snapshot: Json,
                            gaps: seq<seq<Event>>, k: nat, early: World, gap: seq<Event>, v: World)
    returns (final: World)
    requires Sound(env, x, c, snapshot) && k < 4 && Progresses(env, w, x, gaps, k, early)
    requires Others(|w.phases|, gap) && Reaches(env, early, gap, v)
    requires k == 0 ==> FreshSession(v, x.sessionId)
    ensures StepsTo(env, v, OwnEvent(|w.phases|, x, k), final)
    ensures Advances(v, final, |w.phases|, c, x, snapshot, FramesOf(w.written, |w.phases|), k)
  {
    var h, before := |w.phases|, FramesOf(w.written, |w.phases|);
    StageReached(env, w, c, x, snapshot, gaps, k, early);
    GapLeaves(env, early, v, h, c, x, before, gap, k);
    final := OwnStep(env, v, h, c, x, snapshot, before, k);
  }

  /** The run ended with the publication of the session on connection `h`: the last one, with its proof and its
      snapshot, which the registry now answers for the device; and all the handler wrote is the three frames. */
  ghost predicate Served(w: World, final: World, c: SessionChallenge, x: Exchange, snapshot: Json)
  {
    var h := |w.phases|;
    && |w.publications| < |final.publications|
    && final.publications[|final.publications| - 1] == PublishedIn(h, c, x, snapshot)
    && c.audience in final.registry.records
    && final.registry.records[c.audience] == PublishedIn(h, c, x, snapshot).record
    && FramesOf(final.written, h) == FramesOf(w.written, h) + WrittenBy(c, x, 4)
    && h < |final.phases| && final.phases[h] == Acknowledging(c, x.proof)
  }

  /** A session whose documents pass their checks ends published in every run that contains its events in order,
      whatever events of other handlers stand between them. */
  lemma InterleavedSessionPublishes(env: Env, w: World, c: SessionChallenge, x: Exchange, snapshot: Json,
                                    gaps: seq<seq<Event>>, final: World)
    requires Sound(env, x, c, snapshot) && Progresses(env, w, x, gaps, 4, final)
    ensures Served(w, final, c, x, snapshot)
  {
    var early, v := LastOwn(env, w, x, gaps, 4, final);
    StageReached(env, w, c, x, snapshot, gaps, 3, early);
    OwnAfterGap(env, early, v, |w.phases|, c, x, snapshot, FramesOf(w.written, |w.phases|), gaps[3], 3, final);
  }

  /** The undisturbed session: no event between its own. */
  const ALONE: seq<seq<Event>> := [[], [], [], []]

  lemma AloneAppends(h: nat, x: Exchange, k: nat)
    requires k < 4
    ensures EventsAmong(h, x, ALONE, k + 1) == EventsAmong(h, x, ALONE, k) + [OwnEvent(h, x, k)]
  {
    assert EventsAmong(h, x, ALONE, k) + [] == EventsAmong(h, x, ALONE, k);
  }

  function PublicationsAfter(w: World, c: SessionChallenge, x: Exchange, snapshot: Json, k: nat): seq<Publication>
  {
    if k < 4 then w.publications else w.publications + [PublishedIn(|w.phases|, c, x, snapshot)]
  }

  /** Possible from every state in which the session id is fresh. */
  lemma {:induction false} AloneReaches(env: Env, w: World, c: SessionChallenge, x: Exchange, snapshot: Json, k: nat)
    returns (final: World)
    requires Sound(env, x, c, snapshot) && FreshSession(w, x.sessionId) && k <= 4
    ensures Progresses(env, w, x, ALONE, k, final) && final.errors == w.errors
    ensures final.publications == PublicationsAfter(w, c, x, snapshot, k)
    ensures k == 0 ==> FreshSession(final, x.sessionId)
    decreases k
  {
    if k == 0 {
      final := AloneConnects(env, w, x);
    } else {
      var v := AloneReaches(env, w, c, x, snapshot, k - 1);
      final := AloneStep(env, w, v, c, x, snapshot, k - 1);
    }
  }

  lemma AloneConnects(env: Env, w: World, x: Exchange) returns (final: World)
    requires FreshSession(w, x.sessionId)
    ensures Progresses(env, w, x, ALONE, 0, final) && final.errors == w.errors && FreshSession(final, x.sessionId)
    ensures final.publications == w.publications
  {
    final := w.(phases := w.phases + [AwaitingHello]);
    OneEvent(env, w, Connect, final);
  }

  lemma AloneStep(env: Env, w: World, v: World, c: SessionChallenge, x: Exchange, snapshot: Json, k: nat)
    returns (final: World)
    requires Sound(env, x, c, snapshot) && k < 4 && (k == 0 ==> FreshSession(v, x.sessionId))
    requires Progresses(env, w, x, ALONE, k, v) && v.publications == w.publications
    ensures Progresses(env, w, x, ALONE, k + 1, final) && final.errors == v.errors
    ensures final.publications == PublicationsAfter(w, c, x, snapshot, k + 1)
  {
    var h := |w.phases|;
    final := SessionIsNotBlocked(env, w, c, x, snapshot, ALONE, k, v, [], v);
    OneEvent(env, v, OwnEvent(h, x, k), final);
    ReachesJoin(env, w, EventsAmong(h, x, ALONE, k), v, [OwnEvent(h, x, k)], final);
    AloneAppends(h, x, k);
  }

  // ---- An honest device's session ----

  /** Every run with the session's events in order serves it. */
  ghost predicate AlwaysServed(env: Env, w: World, c: SessionChallenge, x: Exchange, snapshot: Json)
  {
    forall gaps, final | Progresses(env, w, x, gaps, 4, final) :: Served(w, final, c, x, snapshot)
  }

  /** There is such a run, with only this publication and no error. */
  ghost predicate CanBeServed(env: Env, w: World, c: SessionChallenge, x: Exchange, snapshot: Json)
  {
    exists final :: Progresses(env, w, x, ALONE, 4, final) && final.errors == w.errors
                    && final.publications == w.publications + [PublishedIn(|w.phases|, c, x, snapshot)]
  }

  lemma SoundIsServed(env: Env, w: World, c: SessionChallenge, x: Exchange, snapshot: Json)
    requires Sound(env, x, c, snapshot)
    ensures AlwaysServed(env, w, c, x, snapshot)
    ensures FreshSession(w, x.sessionId) ==> CanBeServed(env, w, c, x, snapshot)
  {
    forall gaps, final | Progresses(env, w, x, gaps, 4, final) ensures Served(w, final, c, x, snapshot) {
      InterleavedSessionPublishes(env, w, c, x, snapshot, gaps, final);
    }
    if FreshSession(w, x.sessionId) {
      var final := AloneReaches(env, w, c, x, snapshot, 4);
    }
  }

  /** An enrolled honest device whose clock, and later the receiver's, find the challenge valid has its whole filtered
      snapshot published, from every state and in every interleaving of its events with those of others. */
  lemma HonestSessionPublishes(env: Env, w: World, id: Identity, sessionId: string, nonce: Bytes, issued: int, at: int,
                               signature: Bytes, verified: int, document: Json, received: int) returns (published: Json)
    requires IsUuid(sessionId) && |nonce| == 32 && |signature| == 64
    requires Party(env, id, NewSession(id.deviceId, env.relayId, sessionId, nonce, issued))
    requires issued - SESSION_CLOCK_SKEW <= at < issued + 60 * SECOND
    requires issued - SESSION_CLOCK_SKEW <= verified < issued + 60 * SECOND
    requires IsName(env.relayId) && IsTime(issued) && IsTime(issued + 60 * SECOND) && IsTime(at)
    requires WellFormed(document) && Sanitize(env.lower, document).Ok?
    ensures var c := NewSession(id.deviceId, env.relayId, sessionId, nonce, issued);
            var snapshot := Sanitize(env.lower, document).value;
            && Sendable(HelloDocument(id.deviceId)) && Sendable(Envelope(sessionId, snapshot))
            && Sendable(AuthDocument(SessionAuth(c, id.deviceId, Encode(id.key), at), Encode(signature)))
            && Same(snapshot, published)
            && var x := HonestExchange(env, id, c, nonce, at, signature, verified, snapshot, received);
            && AlwaysServed(env, w, c, x, published)
            && (FreshSession(w, sessionId) ==> CanBeServed(env, w, c, x, published))
  {
    published := HonestExchangeIsSound(env, id, sessionId, nonce, issued, at, signature, verified, document, received);
    var c := NewSession(id.deviceId, env.relayId, sessionId, nonce, issued);
    var snapshot := Sanitize(env.lower, document).value;
    SoundIsServed(env, w, c, HonestExchange(env, id, c, nonce, at, signature, verified, snapshot, received), published);
  }
}
