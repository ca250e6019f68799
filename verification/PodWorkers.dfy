/**
  The kubelet's per-pod workers: a capacity-1 channel and a goroutine for each worker, an
  `isWorking` flag and a "last undelivered update" slot for each pod.  One event is one section
  held under `podLock`, one channel receive, or the end of one sync; a run is any interleaving.
 */
module PodWorkers {
  import opened Wrappers

  datatype Uid = Uid(value: string)
  datatype SyncKind = Create | Update | Sync | Kill

  /** An accepted call of UpdatePod; calls are numbered in the order in which they take the lock. */
  datatype Request = Request(serial: nat, uid: Uid, kind: SyncKind)

  /** What the goroutine that ranges over a channel is doing. */
  datatype Worker = Waiting | Syncing(job: Request) | WrappingUp(job: Request) | Exited

  /** A channel with a buffer of one, together with the one goroutine started to read it. */
  datatype Channel = Channel(owner: Uid, buffer: Option<Request>, closed: bool, worker: Worker) {
    predicate Busy() { worker.Syncing? || worker.WrappingUp? }

    /** The requests in this channel's hands: one buffered, one being worked on. */
    function Tokens(): nat {
      (if buffer.Some? then 1 else 0) + (if Busy() then 1 else 0)
    }

    /** Requests are for the pod the channel belongs to; only a closed, drained channel has lost its reader. */
    predicate Ok() {
      && (worker.Exited? ==> closed && buffer.None?)
      && (buffer.Some? ==> buffer.value.uid == owner)
      && (Busy() ==> worker.job.uid == owner)
    }

    /** How many steps this channel's goroutine may still take on its own. */
    function Effort(): nat {
      (if buffer.Some? then 3 else 0)
      + (if worker.Syncing? then 2 else if worker.WrappingUp? then 1 else 0)
      + (if worker.Exited? then 0 else 1)
    }
  }

  /** `stuck` records a send that would block or panic while `podLock` is held. */
  datatype State = State(
    channels: seq<Channel>,
    podUpdates: map<Uid, nat>,
    isWorking: map<Uid, bool>,
    undelivered: map<Uid, Request>,
    submitted: nat,
    stuck: bool)
  {
    /** Go's reading of a missing key. */
    predicate Working(uid: Uid) { uid in isWorking && isWorking[uid] }

    /** The send neither blocks on a full or nil channel nor panics on a closed one. */
    predicate CanSend(uid: Uid) {
      && uid in podUpdates
      && podUpdates[uid] < |channels|
      && !channels[podUpdates[uid]].closed
      && channels[podUpdates[uid]].buffer.None?
    }
  }

  const INITIAL := State([], map[], map[], map[], 0, false)

  datatype Event =
    | UpdatePod(uid: Uid, kind: SyncKind)
    | ForgetWorker(uid: Uid)
    | ForgetNonExistingPodWorkers(desired: set<Uid>)
    | Receive(c: nat)
    | FinishSync(c: nat)
    | WrapUp(c: nat)

  // ---------- The steps ----------

  function Send(s: State, uid: Uid, r: Request): State {
    if s.CanSend(uid) then
      var c := s.podUpdates[uid];
      s.(channels := s.channels[c := s.channels[c].(buffer := Some(r))])
    else
      s.(stuck := true)
  }

  function EnsureWorker(s: State, uid: Uid): State {
    if uid in s.podUpdates then s
    else s.(channels := s.channels + [Channel(uid, None, false, Waiting)],
            podUpdates := s.podUpdates[uid := |s.channels|])
  }

  /** A pod that is not being worked on gets the request at once; a pending kill keeps its place in the slot. */
  function Accept(s: State, r: Request): State {
    if !s.Working(r.uid) then
      Send(s.(isWorking := s.isWorking[r.uid := true]), r.uid, r)
    else if r.uid !in s.undelivered || s.undelivered[r.uid].kind != Kill then
      s.(undelivered := s.undelivered[r.uid := r])
    else
      s
  }

  function UpdatePodStep(s: State, uid: Uid, kind: SyncKind): State {
    Accept(EnsureWorker(s.(submitted := s.submitted + 1), uid), Request(s.submitted, uid, kind))
  }

  /** Removes the workers of all the given pods: closes the channel, empties the slot, keeps isWorking. */
  function Forget(s: State, uids: set<Uid>): State {
    s.(channels := seq(|s.channels|, i requires 0 <= i < |s.channels| =>
         if Forgets(s, uids, i) then s.channels[i].(closed := true) else s.channels[i]),
       podUpdates := s.podUpdates - uids,
       undelivered := map u | u in s.undelivered && !(u in uids && u in s.podUpdates) :: s.undelivered[u])
  }

  predicate Forgets(s: State, uids: set<Uid>, c: nat)
    requires c < |s.channels|
  {
    var u := s.channels[c].owner;
    u in uids && u in s.podUpdates && s.podUpdates[u] == c
  }

  /** A receive delivers the buffered request even from a closed channel; a closed, drained one ends the loop. */
  function ReceiveStep(s: State, c: nat): State
    requires Enabled(s, Receive(c))
  {
    var ch := s.channels[c];
    s.(channels := s.channels[c :=
      if ch.buffer.Some? then ch.(buffer := None, worker := Syncing(ch.buffer.value))
      else ch.(worker := Exited)])
  }

  function FinishSyncStep(s: State, c: nat): State
    requires Enabled(s, FinishSync(c))
  {
    s.(channels := s.channels[c := s.channels[c].(worker := WrappingUp(s.channels[c].worker.job))])
  }

  function Released(s: State, c: nat): State
    requires c < |s.channels|
  {
    s.(channels := s.channels[c := s.channels[c].(worker := Waiting)])
  }

  function WrapUpStep(s: State, c: nat): State
    requires Enabled(s, WrapUp(c))
  {
    var uid := s.channels[c].worker.job.uid;
    var s := Released(s, c);
    if uid in s.undelivered then
      Send(s, uid, s.undelivered[uid]).(undelivered := s.undelivered - {uid})
    else
      s.(isWorking := s.isWorking[uid := false])
  }

  /** Whether the event can happen now; a goroutine on an empty open channel waits. */
  predicate Enabled(s: State, e: Event) {
    match e
    case Receive(c) =>
      c < |s.channels| && s.channels[c].worker == Waiting && (s.channels[c].buffer.Some? || s.channels[c].closed)
    case FinishSync(c) => c < |s.channels| && s.channels[c].worker.Syncing?
    case WrapUp(c) => c < |s.channels| && s.channels[c].worker.WrappingUp?
    case _ => true
  }

  function Step(s: State, e: Event): State {
    if s.stuck || !Enabled(s, e) then s
    else match e
      case UpdatePod(uid, kind) => UpdatePodStep(s, uid, kind)
      case ForgetWorker(uid) => Forget(s, {uid})
      case ForgetNonExistingPodWorkers(desired) => Forget(s, s.podUpdates.Keys - desired)
      case Receive(c) => ReceiveStep(s, c)
      case FinishSync(c) => FinishSyncStep(s, c)
      case WrapUp(c) => WrapUpStep(s, c)
  }

  function Run(s: State, events: seq<Event>): State
    decreases |events|
  {
    if events == [] then s else Step(Run(s, events[..|events| - 1]), events[|events| - 1])
  }

  // ---------- The token invariant ----------

  /** Requests for `uid` held by any channel, open or closed, and by its goroutine. */
  function Tokens(channels: seq<Channel>, uid: Uid): nat {
    if channels == [] then 0
    else Tokens(channels[..|channels| - 1], uid)
         + (if channels[|channels| - 1].owner == uid then channels[|channels| - 1].Tokens() else 0)
  }

  lemma {:induction false} TokensAfterWrite(channels: seq<Channel>, c: nat, ch: Channel, uid: Uid)
    requires c < |channels| && ch.owner == channels[c].owner
    ensures Tokens(channels[c := ch], uid)
         == Tokens(channels, uid) + (if ch.owner == uid then ch.Tokens() - channels[c].Tokens() else 0)
  {
    var n := |channels| - 1;
    if c == n {
      assert channels[c := ch][..n] == channels[..n];
    } else {
      assert channels[c := ch][..n] == channels[..n][c := ch];
      TokensAfterWrite(channels[..n], c, ch, uid);
    }
  }

  lemma {:induction false} TokensSame(a: seq<Channel>, b: seq<Channel>, uid: Uid)
    requires |a| == |b|
    requires forall i :: 0 <= i < |a| ==> a[i].owner == b[i].owner && a[i].Tokens() == b[i].Tokens()
    ensures Tokens(a, uid) == Tokens(b, uid)
  {
    if a != [] { TokensSame(a[..|a| - 1], b[..|b| - 1], uid); }
  }

  /** Each channel's own tokens are part of the total; two different channels' tokens add up. */
  lemma {:induction false} TokensAtLeast(channels: seq<Channel>, i: nat, j: nat)
    requires i <= j < |channels| && channels[i].owner == channels[j].owner
    ensures Tokens(channels, channels[j].owner)
         >= channels[j].Tokens() + (if i == j then 0 else channels[i].Tokens())
  {
    var n := |channels| - 1;
    if j < n {
      TokensAtLeast(channels[..n], i, j);
    } else if i < n {
      TokensAtLeast(channels[..n], i, i);
    }
  }

  lemma {:induction false} TokensWitness(channels: seq<Channel>, uid: Uid) returns (c: nat)
    requires Tokens(channels, uid) > 0
    ensures c < |channels| && channels[c].owner == uid && channels[c].Tokens() > 0
  {
    var n := |channels| - 1;
    if channels[n].owner == uid && channels[n].Tokens() > 0 {
      c := n;
    } else {
      c := TokensWitness(channels[..n], uid);
    }
  }

  /** The map names exactly the open channels, each under the pod it belongs to. */
  ghost predicate Registered(channels: seq<Channel>, podUpdates: map<Uid, nat>) {
    && (forall u <- podUpdates ::
          podUpdates[u] < |channels| && channels[podUpdates[u]].owner == u && !channels[podUpdates[u]].closed)
    && (forall i :: 0 <= i < |channels| ==>
          && channels[i].Ok()
          && (!channels[i].closed ==> channels[i].owner in podUpdates && podUpdates[channels[i].owner] == i))
  }

  ghost predicate SlotsOk(undelivered: map<Uid, Request>, podUpdates: map<Uid, nat>, isWorking: map<Uid, bool>) {
    forall u <- undelivered :: u in podUpdates && u in isWorking && isWorking[u] && undelivered[u].uid == u
  }

  ghost predicate OneToken(channels: seq<Channel>, isWorking: map<Uid, bool>) {
    forall u: Uid :: Tokens(channels, u) == if u in isWorking && isWorking[u] then 1 else 0
  }

  /** One token for a pod marked as working, none for the others; only a working pod has an undelivered update. */
  ghost predicate Inv(s: State) {
    && !s.stuck
    && Registered(s.channels, s.podUpdates)
    && SlotsOk(s.undelivered, s.podUpdates, s.isWorking)
    && OneToken(s.channels, s.isWorking)
  }

  /** The channel that a step writes to is known, open and empty, because its pod has no token. */
  lemma NoTokenCanSend(s: State, uid: Uid)
    requires Registered(s.channels, s.podUpdates) && uid in s.podUpdates && Tokens(s.channels, uid) == 0
    ensures s.CanSend(uid)
  {
    TokensAtLeast(s.channels, s.podUpdates[uid], s.podUpdates[uid]);
  }

  lemma SendKeepsChannels(s: State, uid: Uid, r: Request)
    requires Registered(s.channels, s.podUpdates) && uid in s.podUpdates && Tokens(s.channels, uid) == 0 && r.uid == uid
    ensures Registered(Send(s, uid, r).channels, s.podUpdates)
    ensures Send(s, uid, r).podUpdates == s.podUpdates && Send(s, uid, r).stuck == s.stuck
    ensures forall u: Uid :: Tokens(Send(s, uid, r).channels, u) == Tokens(s.channels, u) + if u == uid then 1 else 0
  {
    NoTokenCanSend(s, uid);
    var c := s.podUpdates[uid];
    forall u: Uid {
      TokensAfterWrite(s.channels, c, s.channels[c].(buffer := Some(r)), u);
    }
  }

  lemma WriteKeepsChannels(s: State, c: nat, ch: Channel)
    requires Registered(s.channels, s.podUpdates) && c < |s.channels|
    requires ch.owner == s.channels[c].owner && ch.closed == s.channels[c].closed
    requires ch.Ok()
    ensures Registered(s.channels[c := ch], s.podUpdates)
  {
  }

  lemma EnsureWorkerKeepsInv(s: State, uid: Uid, submitted: nat)
    requires Inv(s)
    ensures var t := EnsureWorker(s.(submitted := submitted), uid); Inv(t) && uid in t.podUpdates
  {
    var t := EnsureWorker(s.(submitted := submitted), uid);
    if uid !in s.podUpdates {
      assert t.channels[..|s.channels|] == s.channels;
      assert OneToken(t.channels, t.isWorking);
      assert Registered(t.channels, t.podUpdates);
    }
  }

  lemma AcceptKeepsInv(s: State, r: Request, after: State)
    requires Inv(s) && r.uid in s.podUpdates && after == Accept(s, r)
    ensures Inv(after)
  {
    if !s.Working(r.uid) {
      SendKeepsChannels(s.(isWorking := s.isWorking[r.uid := true]), r.uid, r);
    }
  }

  lemma UpdatePodKeepsInv(s: State, uid: Uid, kind: SyncKind)
    requires Inv(s)
    ensures Inv(UpdatePodStep(s, uid, kind))
  {
    var t := EnsureWorker(s.(submitted := s.submitted + 1), uid);
    BothKeepInv(s, t, Request(s.submitted, uid, kind), UpdatePodStep(s, uid, kind));
  }

  lemma BothKeepInv(s: State, t: State, r: Request, after: State)
    requires Inv(s) && t == EnsureWorker(s.(submitted := s.submitted + 1), r.uid) && after == Accept(t, r)
    ensures Inv(after)
  {
    EnsureWorkerKeepsInv(s, r.uid, s.submitted + 1);
    AcceptKeepsInv(t, r, after);
  }

  lemma UpdatePodCanSend(s: State, uid: Uid, submitted: nat)
    requires Inv(s) && !s.Working(uid)
    ensures EnsureWorker(s.(submitted := submitted), uid).CanSend(uid)
  {
    EnsureWorkerKeepsInv(s, uid, submitted);
    NoTokenCanSend(EnsureWorker(s.(submitted := submitted), uid), uid);
  }

  lemma ForgetKeepsInv(s: State, uids: set<Uid>)
    requires Inv(s)
    ensures Inv(Forget(s, uids))
  {
    forall u: Uid {
      TokensSame(s.channels, Forget(s, uids).channels, u);
    }
  }

  lemma PassTokenKeepsInv(s: State, c: nat, ch: Channel)
    requires Inv(s) && c < |s.channels|
    requires ch.owner == s.channels[c].owner && ch.closed == s.channels[c].closed
    requires ch.Ok()
    requires ch.Tokens() == s.channels[c].Tokens()
    ensures Inv(s.(channels := s.channels[c := ch]))
  {
    var t := s.(channels := s.channels[c := ch]);
    WriteKeepsChannels(s, c, ch);
    forall u: Uid ensures Tokens(t.channels, u) == if t.Working(u) then 1 else 0 {
      TokensAfterWrite(s.channels, c, ch, u);
    }
  }

  lemma ReceiveKeepsInv(s: State, c: nat)
    requires Inv(s) && Enabled(s, Receive(c))
    ensures Inv(ReceiveStep(s, c))
  {
    PassTokenKeepsInv(s, c, ReceiveStep(s, c).channels[c]);
  }

  lemma FinishSyncKeepsInv(s: State, c: nat)
    requires Inv(s) && Enabled(s, FinishSync(c))
    ensures Inv(FinishSyncStep(s, c))
  {
    PassTokenKeepsInv(s, c, FinishSyncStep(s, c).channels[c]);
  }

  /** The goroutine gives up its token: its pod has none left. */
  lemma ReleaseToken(s: State, c: nat)
    requires Inv(s) && Enabled(s, WrapUp(c))
    ensures Registered(Released(s, c).channels, s.podUpdates) && s.Working(s.channels[c].owner)
    ensures forall u: Uid ::
      Tokens(Released(s, c).channels, u) == if s.Working(u) && u != s.channels[c].owner then 1 else 0
  {
    var ch := s.channels[c].(worker := Waiting);
    WriteKeepsChannels(s, c, ch);
    TokensAtLeast(s.channels, c, c);
    forall u: Uid
      ensures Tokens(Released(s, c).channels, u) == if s.Working(u) && u != s.channels[c].owner then 1 else 0
    {
      TokensAfterWrite(s.channels, c, ch, u);
    }
  }

  lemma WrapUpKeepsInv(s: State, c: nat)
    requires Inv(s) && Enabled(s, WrapUp(c))
    ensures Inv(WrapUpStep(s, c))
  {
    var uid := s.channels[c].owner;
    ReleaseToken(s, c);
    if uid in s.undelivered {
      SendKeepsChannels(Released(s, c), uid, s.undelivered[uid]);
    }
  }

  lemma WrapUpCanSend(s: State, c: nat)
    requires Inv(s) && Enabled(s, WrapUp(c)) && s.channels[c].owner in s.undelivered
    ensures Released(s, c).CanSend(s.channels[c].owner)
  {
    ReleaseToken(s, c);
    NoTokenCanSend(Released(s, c), s.channels[c].owner);
  }

  lemma WorkerStepKeepsInv(s: State, e: Event)
    requires Inv(s) && IsWorkerStep(e) && Enabled(s, e)
    ensures Inv(Step(s, e))
  {
    match e
    case Receive(c) => ReceiveKeepsInv(s, c);
    case FinishSync(c) => FinishSyncKeepsInv(s, c);
    case WrapUp(c) => WrapUpKeepsInv(s, c);
  }

  lemma StepKeepsInv(s: State, e: Event)
    requires Inv(s)
    ensures Inv(Step(s, e))
  {
    match e
    case UpdatePod(uid, kind) => UpdatePodKeepsInv(s, uid, kind);
    case ForgetWorker(uid) => ForgetKeepsInv(s, {uid});
    case ForgetNonExistingPodWorkers(desired) => ForgetKeepsInv(s, s.podUpdates.Keys - desired);
    case _ =>
      if Enabled(s, e) { WorkerStepKeepsInv(s, e); }
  }

  // ---------- Safety over every run ----------

  lemma {:induction false} EveryRunKeepsInv(events: seq<Event>)
    ensures Inv(Run(INITIAL, events))
    decreases |events|
  {
    if events != [] {
      EveryRunKeepsInv(events[..|events| - 1]);
      StepKeepsInv(Run(INITIAL, events[..|events| - 1]), events[|events| - 1]);
    }
  }

  /** Never two syncs for one pod at a time, not even when a forgotten worker was replaced during its sync. */
  lemma AtMostOneSyncPerPod(events: seq<Event>, i: nat, j: nat)
    requires var cs := Run(INITIAL, events).channels;
             i < j < |cs| && cs[i].owner == cs[j].owner
    ensures var cs := Run(INITIAL, events).channels;
            cs[i].Tokens() == 0 || cs[j].Tokens() == 0
  {
    EveryRunKeepsInv(events);
    TokensAtLeast(Run(INITIAL, events).channels, i, j);
  }

  /** Both sends of the protocol find an open, empty channel, so no run blocks or panics under the lock. */
  lemma SendsNeverBlock(events: seq<Event>, uid: Uid)
    ensures var s := Run(INITIAL, events);
      && !s.stuck
      && (!s.Working(uid) ==> EnsureWorker(s, uid).CanSend(uid))
      && (forall c: nat :: Enabled(s, WrapUp(c)) && s.channels[c].owner in s.undelivered ==>
            Released(s, c).CanSend(s.channels[c].owner))
  {
    EveryRunKeepsInv(events);
    var s := Run(INITIAL, events);
    if !s.Working(uid) {
      UpdatePodCanSend(s, uid, s.submitted);
    }
    forall c: nat | Enabled(s, WrapUp(c)) && s.channels[c].owner in s.undelivered {
      WrapUpCanSend(s, c);
    }
  }

  // ---------- Draining ----------

  predicate IsWorkerStep(e: Event) { e.Receive? || e.FinishSync? || e.WrapUp? }

  /** No goroutine can take a step: each waits on an empty open channel or has ended. */
  ghost predicate Quiescent(s: State) {
    forall e: Event :: IsWorkerStep(e) ==> !Enabled(s, e)
  }

  function Effort(channels: seq<Channel>): nat {
    if channels == [] then 0 else Effort(channels[..|channels| - 1]) + channels[|channels| - 1].Effort()
  }

  lemma {:induction false} EffortAfterWrite(channels: seq<Channel>, c: nat, ch: Channel)
    requires c < |channels|
    ensures Effort(channels[c := ch]) == Effort(channels) + ch.Effort() - channels[c].Effort()
  {
    var n := |channels| - 1;
    if c == n {
      assert channels[c := ch][..n] == channels[..n];
    } else {
      assert channels[c := ch][..n] == channels[..n][c := ch];
      EffortAfterWrite(channels[..n], c, ch);
    }
  }

  function Remaining(s: State): nat { Effort(s.channels) + 4 * |s.undelivered| }

  lemma DeliverEffort(s: State, c: nat)
    requires Enabled(s, WrapUp(c)) && s.channels[c].Ok() && s.channels[c].owner in s.undelivered
    requires Released(s, c).CanSend(s.channels[c].owner)
    ensures Remaining(WrapUpStep(s, c)) == Remaining(s) - 2
  {
    var uid := s.channels[c].owner;
    var t := Released(s, c);
    EffortAfterWrite(s.channels, c, t.channels[c]);
    var d := s.podUpdates[uid];
    EffortAfterWrite(t.channels, d, t.channels[d].(buffer := Some(s.undelivered[uid])));
    assert (s.undelivered - {uid}).Keys == s.undelivered.Keys - {uid};
  }

  lemma WorkerStepMakesProgress(s: State, e: Event)
    requires Inv(s) && IsWorkerStep(e) && Enabled(s, e)
    ensures Remaining(Step(s, e)) < Remaining(s)
  {
    if e.WrapUp? && s.channels[e.c].owner in s.undelivered {
      WrapUpCanSend(s, e.c);
      DeliverEffort(s, e.c);
    } else {
      EffortAfterWrite(s.channels, e.c, Step(s, e).channels[e.c]);
    }
  }

  /** Every step of this run is a goroutine's step that was possible when it was taken. */
  ghost predicate WorkersOnly(s: State, events: seq<Event>)
    decreases |events|
  {
    events == [] ||
    (IsWorkerStep(events[0]) && Enabled(s, events[0]) && WorkersOnly(Step(s, events[0]), events[1..]))
  }

  /** Left alone, the goroutines stop after a bounded number of steps, in whatever order they run. */
  lemma {:induction false} DrainIsBounded(s: State, events: seq<Event>)
    requires Inv(s) && WorkersOnly(s, events)
    ensures |events| <= Remaining(s)
    decreases |events|
  {
    if events != [] {
      StepKeepsInv(s, events[0]);
      WorkerStepMakesProgress(s, events[0]);
      DrainIsBounded(Step(s, events[0]), events[1..]);
    }
  }

  /** When they have stopped, nothing is left behind: no pod is marked as working and no slot is full. */
  lemma QuiescentMeansDrained(s: State)
    requires Inv(s) && Quiescent(s)
    ensures s.undelivered == map[]
    ensures forall u: Uid :: !s.Working(u)
    ensures forall i :: 0 <= i < |s.channels| ==>
      s.channels[i].Tokens() == 0 && (s.channels[i].worker.Exited? <==> s.channels[i].closed)
  {
    forall i | 0 <= i < |s.channels|
      ensures s.channels[i].Tokens() == 0 && (s.channels[i].worker.Exited? <==> s.channels[i].closed)
    {
      assert !Enabled(s, Receive(i)) && !Enabled(s, FinishSync(i)) && !Enabled(s, WrapUp(i));
    }
    forall u: Uid ensures !s.Working(u) {
      if s.Working(u) {
        var c := TokensWitness(s.channels, u);
      }
    }
    assert forall u <- s.undelivered :: s.Working(u);
  }

  lemma ForgetNothing(s: State)
    ensures Forget(s, {}) == s
  {
    assert Forget(s, {}).channels == s.channels;
    assert Forget(s, {}).podUpdates == s.podUpdates;
    assert Forget(s, {}).undelivered == s.undelivered;
  }

  lemma ForgetTwice(s: State, a: set<Uid>, b: set<Uid>)
    requires Registered(s.channels, s.podUpdates)
    ensures Forget(Forget(s, a), b) == Forget(s, a + b)
  {
    var once, twice := Forget(s, a + b), Forget(Forget(s, a), b);
    assert once.podUpdates == twice.podUpdates;
    forall i | 0 <= i < |s.channels| ensures once.channels[i] == twice.channels[i] {
      assert once.channels[i].closed == twice.channels[i].closed;
    }
    assert once.channels == twice.channels;
    assert once.undelivered == twice.undelivered;
  }

  // ---------- What forgetting does ----------

  /** Nothing about the channel changes but whether it is closed. */
  ghost predicate SameButClosed(a: Channel, b: Channel) {
    a.owner == b.owner && a.buffer == b.buffer && a.worker == b.worker
  }

  lemma NextState(events: seq<Event>, e: Event)
    ensures Run(INITIAL, events + [e]) == Step(Run(INITIAL, events), e)
  {
    assert (events + [e])[..|events|] == events;
  }

  /**
    In every run ForgetWorker closes the pod's channel, leaving buffer and goroutine alone, and takes the
    pod out of the map and out of the slots; the flags, and everything of other pods, stay.
   */
  lemma ForgetWorkerEffect(events: seq<Event>, uid: Uid)
    ensures var s, t := Run(INITIAL, events), Run(INITIAL, events + [ForgetWorker(uid)]);
      && t.isWorking == s.isWorking && t.submitted == s.submitted && |t.channels| == |s.channels|
      && t.podUpdates == s.podUpdates - {uid} && t.undelivered == s.undelivered - {uid}
      && forall c :: 0 <= c < |s.channels| ==>
           && SameButClosed(s.channels[c], t.channels[c])
           && (t.channels[c].closed <==> s.channels[c].closed || (uid in s.podUpdates && s.podUpdates[uid] == c))
  {
    NextState(events, ForgetWorker(uid));
    EveryRunKeepsInv(events);
    var s, t := Run(INITIAL, events), Run(INITIAL, events + [ForgetWorker(uid)]);
    assert t.undelivered == s.undelivered - {uid};
  }

  /**
    In every run ForgetNonExistingPodWorkers keeps exactly the desired workers, each with its channel, and
    closes exactly the channels of the others.
   */
  lemma ForgetUndesiredEffect(events: seq<Event>, desired: set<Uid>)
    ensures var s, t := Run(INITIAL, events), Run(INITIAL, events + [ForgetNonExistingPodWorkers(desired)]);
      && t.isWorking == s.isWorking && t.submitted == s.submitted && |t.channels| == |s.channels|
      && t.podUpdates.Keys == s.podUpdates.Keys * desired
      && t.undelivered.Keys == s.undelivered.Keys * desired
      && (forall u <- t.podUpdates :: t.podUpdates[u] == s.podUpdates[u])
      && (forall u <- t.undelivered :: t.undelivered[u] == s.undelivered[u])
      && forall c :: 0 <= c < |s.channels| ==>
           && SameButClosed(s.channels[c], t.channels[c])
           && (t.channels[c].closed <==> s.channels[c].closed || s.channels[c].owner !in desired)
  {
    NextState(events, ForgetNonExistingPodWorkers(desired));
    EveryRunKeepsInv(events);
    var s, t := Run(INITIAL, events), Run(INITIAL, events + [ForgetNonExistingPodWorkers(desired)]);
    assert t.podUpdates.Keys == s.podUpdates.Keys * desired;
    assert t.undelivered.Keys == s.undelivered.Keys * desired;
  }

  /** A pod forgotten during its sync and updated again: two goroutines for it, of which one holds the request. */
  lemma TwoWorkersForOnePod(uid: Uid)
    ensures var events := [] + [UpdatePod(uid, Create)] + [Receive(0)] + [ForgetWorker(uid)] + [UpdatePod(uid, Update)];
      Run(INITIAL, events).channels ==
        [Channel(uid, None, true, Syncing(Request(0, uid, Create))), Channel(uid, None, false, Waiting)]
  {
    var e1 := [] + [UpdatePod(uid, Create)];
    var e2 := e1 + [Receive(0)];
    var e3 := e2 + [ForgetWorker(uid)];
    assert Run(INITIAL, []) == INITIAL;
    NextState([], UpdatePod(uid, Create));
    var waiting := Channel(uid, Some(Request(0, uid, Create)), false, Waiting);
    assert Run(INITIAL, e1) == State([waiting], map[uid := 0], map[uid := true], map[], 1, false);
    NextState(e1, Receive(0));
    var syncing := Channel(uid, None, false, Syncing(Request(0, uid, Create)));
    assert Run(INITIAL, e2) == State([syncing], map[uid := 0], map[uid := true], map[], 1, false);
    ForgetWorkerEffect(e2, uid);
    EveryRunKeepsInv(e3);
    assert Run(INITIAL, e3).channels == [syncing.(closed := true)];
    assert !Run(INITIAL, e3).stuck && uid !in Run(INITIAL, e3).podUpdates && Run(INITIAL, e3).Working(uid);
    NextState(e3, UpdatePod(uid, Update));
  }

  // ---------- The pool itself ----------

  lemma OneMoreKey(all: set<Uid>, rest: set<Uid>, desired: set<Uid>, key: Uid)
    requires rest <= all && key in rest
    ensures (all - (rest - {key})) - desired == ((all - rest) - desired) + (if key in desired then {} else {key})
  {
  }

  /** The mutable maps behind `podLock`; every method is one event and keeps the invariant. */
  class PodWorkerPool {
    var channels: seq<Channel>
    var podUpdates: map<Uid, nat>
    var isWorking: map<Uid, bool>
    var lastUndeliveredWorkUpdate: map<Uid, Request>
    var submitted: nat

    ghost function View(): State
      reads this
    {
      State(channels, podUpdates, isWorking, lastUndeliveredWorkUpdate, submitted, false)
    }

    ghost predicate Valid()
      reads this
    {
      Inv(View())
    }

    constructor ()
      ensures Valid() && View() == INITIAL
    {
      channels, podUpdates, isWorking, lastUndeliveredWorkUpdate, submitted := [], map[], map[], map[], 0;
      new;
      EveryRunKeepsInv([]);
    }

    method SendTo(uid: Uid, r: Request)
      requires View().CanSend(uid)
      modifies this`channels
      ensures View() == Send(old(View()), uid, r)
    {
      var c := podUpdates[uid];
      channels := channels[c := channels[c].(buffer := Some(r))];
    }

    method StartWorker(uid: Uid)
      modifies this`channels, this`podUpdates
      ensures View() == EnsureWorker(old(View()), uid)
    {
      if uid !in podUpdates {
        podUpdates := podUpdates[uid := |channels|];
        channels := channels + [Channel(uid, None, false, Waiting)];
      }
    }

    method AcceptRequest(r: Request)
      requires !View().Working(r.uid) ==> View().CanSend(r.uid)
      modifies this
      ensures View() == Accept(old(View()), r)
    {
      if !(r.uid in isWorking && isWorking[r.uid]) {
        isWorking := isWorking[r.uid := true];
        SendTo(r.uid, r);
      } else if r.uid !in lastUndeliveredWorkUpdate || lastUndeliveredWorkUpdate[r.uid].kind != Kill {
        lastUndeliveredWorkUpdate := lastUndeliveredWorkUpdate[r.uid := r];
      }
    }

    method UpdatePod(uid: Uid, kind: SyncKind)
      requires Valid()
      modifies this
      ensures Valid() && View() == Step(old(View()), Event.UpdatePod(uid, kind))
    {
      ghost var before := View();
      if !before.Working(uid) {
        UpdatePodCanSend(before, uid, submitted + 1);
      }
      var r := Request(submitted, uid, kind);
      submitted := submitted + 1;
      StartWorker(uid);
      AcceptRequest(r);
      assert View() == UpdatePodStep(before, uid, kind);
      UpdatePodKeepsInv(before, uid, kind);
    }

    method RemoveWorker(uid: Uid)
      requires Valid()
      modifies this
      ensures Valid() && View() == Forget(old(View()), {uid})
      ensures isWorking == old(isWorking) && podUpdates == old(podUpdates) - {uid}
      ensures lastUndeliveredWorkUpdate == old(lastUndeliveredWorkUpdate) - {uid}
      ensures channels == if uid in old(podUpdates)
        then old(channels)[old(podUpdates)[uid] := old(channels)[old(podUpdates)[uid]].(closed := true)]
        else old(channels)
    {
      ForgetKeepsInv(View(), {uid});
      if uid in podUpdates {
        var c := podUpdates[uid];
        channels := channels[c := channels[c].(closed := true)];
        podUpdates := podUpdates - {uid};
        lastUndeliveredWorkUpdate := lastUndeliveredWorkUpdate - {uid};
      }
      assert View().channels == Forget(old(View()), {uid}).channels;
      assert View().podUpdates == Forget(old(View()), {uid}).podUpdates;
      assert View().undelivered == Forget(old(View()), {uid}).undelivered;
    }

    method ForgetNonExistingPodWorkers(desired: set<Uid>)
      requires Valid()
      modifies this
      ensures Valid()
      ensures View() == Step(old(View()), Event.ForgetNonExistingPodWorkers(desired))
      ensures podUpdates.Keys == old(podUpdates).Keys * desired && isWorking == old(isWorking)
    {
      ghost var before := View();
      var rest := podUpdates.Keys;
      ghost var done := {};
      ForgetNothing(before);
      while rest != {}
        invariant rest <= before.podUpdates.Keys
        invariant done == (before.podUpdates.Keys - rest) - desired
        invariant View() == Forget(before, done)
        decreases rest
      {
        var key :| key in rest;
        OneMoreKey(before.podUpdates.Keys, rest, desired, key);
        if key !in desired {
          ForgetTwice(before, done, {key});
          ForgetKeepsInv(before, done);
          RemoveWorker(key);
          done := done + {key};
        }
        rest := rest - {key};
      }
      assert done == before.podUpdates.Keys - desired;
      ForgetKeepsInv(before, done);
      assert podUpdates.Keys == before.podUpdates.Keys * desired;
    }

    /** One turn of the goroutine's `range` loop: take the buffered request, or end on a closed channel. */
    method ReceiveFrom(c: nat)
      requires Valid() && Enabled(View(), Receive(c))
      modifies this`channels
      ensures Valid() && View() == Step(old(View()), Receive(c))
    {
      WorkerStepKeepsInv(View(), Receive(c));
      var ch := channels[c];
      if ch.buffer.Some? {
        channels := channels[c := ch.(buffer := None, worker := Syncing(ch.buffer.value))];
      } else {
        channels := channels[c := ch.(worker := Exited)];
      }
    }

    method FinishSyncOn(c: nat)
      requires Valid() && Enabled(View(), FinishSync(c))
      modifies this`channels
      ensures Valid() && View() == Step(old(View()), FinishSync(c))
    {
      WorkerStepKeepsInv(View(), FinishSync(c));
      channels := channels[c := channels[c].(worker := WrappingUp(channels[c].worker.job))];
    }

    method CheckForUpdates(c: nat)
      requires Valid() && Enabled(View(), WrapUp(c))
      modifies this
      ensures Valid() && View() == Step(old(View()), WrapUp(c))
    {
      ghost var before := View();
      WorkerStepKeepsInv(before, WrapUp(c));
      var uid := channels[c].worker.job.uid;
      channels := channels[c := channels[c].(worker := Waiting)];
      if uid in lastUndeliveredWorkUpdate {
        SendTo(uid, lastUndeliveredWorkUpdate[uid]);
        lastUndeliveredWorkUpdate := lastUndeliveredWorkUpdate - {uid};
      } else {
        isWorking := isWorking[uid := false];
      }
    }
  }
}
