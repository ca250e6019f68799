/**
  What becomes of a request to kill a pod.  The comment on UpdatePodOptions says that it is always
  delivered; here is when it is, over every run that comes to rest.
 */
module PodKills {
  import opened PodWorkers
  import opened PodRequestLedger

  /** A kill request already waits in the slot: the guard that makes UpdatePod ignore a new request. */
  predicate KillPending(s: State, uid: Uid) {
    s.Working(uid) && uid in s.undelivered && s.undelivered[uid].kind == Kill
  }

  /** The event asks to forget this pod's worker. */
  predicate NamesPod(e: Event, uid: Uid) {
    match e
    case ForgetWorker(u) => u == uid
    case ForgetNonExistingPodWorkers(desired) => uid !in desired
    case _ => false
  }

  predicate InSlot(s: State, uid: Uid, k: nat) {
    uid in s.undelivered && s.undelivered[uid].serial == k
  }

  /** Event i of `post` forgets the pod's worker while request k waits in the pod's slot. */
  predicate ForgottenInSlot(pre: seq<Event>, post: seq<Event>, uid: Uid, k: nat, i: nat) {
    i < |post| && InSlot(Run(INITIAL, pre + post[..i]), uid, k) && NamesPod(post[i], uid)
  }

  /** Some event of `post` does. */
  ghost predicate Forgotten(pre: seq<Event>, post: seq<Event>, uid: Uid, k: nat) {
    exists i :: ForgottenInSlot(pre, post, uid, k, i)
  }

  /** The number that a call of UpdatePod after the events `pre` gets, and what has become of it. */
  function Serial(pre: seq<Event>): nat { Run(INITIAL, pre).submitted }

  predicate Processes(events: seq<Event>, k: nat) { k < |History(events)| && History(events)[k].fate == Processed }

  // ---------- One event ----------

  /** Only a forget of its pod drops a request, and it drops the one that waits in the slot. */
  lemma DroppedByForget(events: seq<Event>, e: Event, k: nat)
    requires k < |History(events)| && k < |History(events + [e])|
    ensures var uid := History(events)[k].request.uid;
      History(events + [e])[k].fate.Dropped? <==>
        History(events)[k].fate.Dropped? || (InSlot(Run(INITIAL, events), uid, k) && NamesPod(e, uid))
  {
    EveryRunKeepsInv(events);
    EveryRequestIsAccountedFor(events);
    FatesMoveForward(events, e, k);
    OneMore(events, e);
    RecordDrops(Run(INITIAL, events), History(events), e, k);
  }

  lemma RecordDrops(s: State, h: Ledger, e: Event, k: nat)
    requires Inv(s) && Faithful(s, h) && k < |h| && k < |Record(s, h, e)|
    requires MayBecome(h[k].fate, Record(s, h, e)[k].fate, h[k].request.kind, e)
    ensures Record(s, h, e)[k].fate.Dropped? <==>
      h[k].fate.Dropped? || (InSlot(s, h[k].request.uid, k) && NamesPod(e, h[k].request.uid))
  {
    SlotEntry(s, h, k);
    match e
    case ForgetWorker(uid) => ForgetDrops(s, h, {uid}, k);
    case ForgetNonExistingPodWorkers(desired) => ForgetDrops(s, h, s.podUpdates.Keys - desired, k);
    case _ =>
  }

  lemma ForgetDrops(s: State, h: Ledger, uids: set<Uid>, k: nat)
    requires k < |h| && (InSlot(s, h[k].request.uid, k) ==> h[k].request.uid in s.podUpdates)
    ensures RecordForget(s, h, uids)[k].fate.Dropped? <==>
      h[k].fate.Dropped? || (InSlot(s, h[k].request.uid, k) && h[k].request.uid in uids)
  {
  }

  lemma SlotEntry(s: State, h: Ledger, k: nat)
    requires Inv(s) && Faithful(s, h) && k < |h|
    ensures h[k].fate.Undelivered? <==> InSlot(s, h[k].request.uid, k)
    ensures InSlot(s, h[k].request.uid, k) ==> h[k].request.uid in s.podUpdates
  {
    assert EntryOk(h, k) && Backed(s, h[k]);
    var uid := h[k].request.uid;
    if InSlot(s, uid, k) { assert Has(h, s.undelivered[uid], Undelivered); }
  }

  // ---------- Many events ----------

  /** Delivered stays delivered; a kill is never superseded, and refused only at once. */
  ghost predicate Kept(before: Entry, after: Entry) {
    && after.request == before.request
    && (before.fate.Delivered() ==> after.fate.Delivered())
    && (before.fate.Refused? <==> after.fate.Refused?)
    && (before.request.kind == Kill ==> (before.fate.Superseded? <==> after.fate.Superseded?))
  }

  lemma KeptByOne(events: seq<Event>, e: Event, k: nat)
    requires k < |History(events)|
    ensures k < |History(events + [e])| && Kept(History(events)[k], History(events + [e])[k])
  {
    FatesMoveForward(events, e, k);
  }

  lemma {:induction false} FateAfter(pre: seq<Event>, post: seq<Event>, k: nat)
    requires k < |History(pre)|
    ensures k < |History(pre + post)| && Kept(History(pre)[k], History(pre + post)[k])
    decreases |post|
  {
    if post == [] {
      assert pre + post == pre;
    } else {
      var butLast, last := post[..|post| - 1], post[|post| - 1];
      FateAfter(pre, butLast, k);
      assert pre + post == (pre + butLast) + [last];
      KeptByOne(pre + butLast, last, k);
    }
  }

  lemma {:induction false} DroppedIff(pre: seq<Event>, post: seq<Event>, k: nat)
    requires k < |History(pre)| && k < |History(pre + post)|
    ensures History(pre + post)[k].fate.Dropped? <==>
      History(pre)[k].fate.Dropped? || Forgotten(pre, post, History(pre)[k].request.uid, k)
    decreases |post|
  {
    var uid := History(pre)[k].request.uid;
    if post == [] {
      assert pre + post == pre;
    } else {
      var n := |post| - 1;
      FateAfter(pre, post[..n], k);
      DroppedIff(pre, post[..n], k);
      assert pre + post == (pre + post[..n]) + [post[n]];
      DroppedByForget(pre + post[..n], post[n], k);
      OneMoreForget(pre, post, post[..n], uid, k);
    }
  }

  lemma OneMoreForget(pre: seq<Event>, post: seq<Event>, butLast: seq<Event>, uid: Uid, k: nat)
    requires post != [] && butLast == post[..|post| - 1]
    ensures Forgotten(pre, post, uid, k) <==>
      || Forgotten(pre, butLast, uid, k)
      || (InSlot(Run(INITIAL, pre + butLast), uid, k) && NamesPod(post[|post| - 1], uid))
  {
    var n := |post| - 1;
    forall i: nat | i < n
      ensures ForgottenInSlot(pre, post[..n], uid, k, i) <==> ForgottenInSlot(pre, post, uid, k, i)
    {
      assert post[..n][..i] == post[..i];
    }
    assert ForgottenInSlot(pre, post, uid, k, n) <==>
      InSlot(Run(INITIAL, pre + post[..n]), uid, k) && NamesPod(post[n], uid);
  }

  // ---------- The kill request ----------

  /** What UpdatePod does with a request, by the state it finds. */
  lemma FateAtOnce(pre: seq<Event>, uid: Uid, kind: SyncKind)
    ensures var s, k, h := Run(INITIAL, pre), Serial(pre), History(pre + [UpdatePod(uid, kind)]);
      && k < |h| && h[k].request == Request(k, uid, kind)
      && (h[k].fate.Buffered? <==> !s.Working(uid))
      && (h[k].fate.Refused? <==> KillPending(s, uid))
      && (h[k].fate.Undelivered? <==> s.Working(uid) && !KillPending(s, uid))
  {
    OneMore(pre, UpdatePod(uid, kind));
    EveryRunKeepsInv(pre);
    EveryRequestIsAccountedFor(pre);
    LastRecorded(Run(INITIAL, pre), History(pre), Request(Serial(pre), uid, kind));
  }

  lemma LastRecorded(s: State, h: Ledger, r: Request)
    requires r.serial == |h|
    ensures var h' := RecordUpdate(s, h, r);
      && |h'| == |h| + 1 && h'[|h|].request == r
      && (h'[|h|].fate.Buffered? <==> !s.Working(r.uid))
      && (h'[|h|].fate.Refused? <==> KillPending(s, r.uid))
      && (h'[|h|].fate.Undelivered? <==> s.Working(r.uid) && !KillPending(s, r.uid))
  {
  }

  /** Whatever is asked of an idle pod is carried out, whether or not its worker is forgotten afterwards. */
  lemma IdlePodIsServed(pre: seq<Event>, uid: Uid, kind: SyncKind, post: seq<Event>)
    requires !Run(INITIAL, pre).Working(uid)
    requires Quiescent(Run(INITIAL, pre + [UpdatePod(uid, kind)] + post))
    ensures Processes(pre + [UpdatePod(uid, kind)] + post, Serial(pre))
  {
    var mid, k := pre + [UpdatePod(uid, kind)], Serial(pre);
    FateAtOnce(pre, uid, kind);
    FateAfter(mid, post, k);
    QuiescentMeansSettled(mid + post, k);
  }

  /**
    Once the goroutines have come to rest, a kill request has been carried out exactly when no other
    kill was pending at the call and no forget of the pod came while it waited in the slot.
   */
  lemma KillIsCarriedOutIff(pre: seq<Event>, uid: Uid, post: seq<Event>)
    requires Quiescent(Run(INITIAL, pre + [UpdatePod(uid, Kill)] + post))
    ensures Processes(pre + [UpdatePod(uid, Kill)] + post, Serial(pre)) <==>
      && !KillPending(Run(INITIAL, pre), uid)
      && !Forgotten(pre + [UpdatePod(uid, Kill)], post, uid, Serial(pre))
  {
    var mid, k := pre + [UpdatePod(uid, Kill)], Serial(pre);
    FateAtOnce(pre, uid, Kill);
    FateAfter(mid, post, k);
    DroppedIff(mid, post, k);
    QuiescentMeansSettled(mid + post, k);
  }

  /** A working pod with no kill pending: forgetting its worker right after the call drops the request. */
  lemma ForgetDropsRequest(pre: seq<Event>, uid: Uid, kind: SyncKind)
    requires Run(INITIAL, pre).Working(uid) && !KillPending(Run(INITIAL, pre), uid)
    ensures var h := History(pre + [UpdatePod(uid, kind)] + [ForgetWorker(uid)]);
            Serial(pre) < |h| && h[Serial(pre)] == Entry(Request(Serial(pre), uid, kind), Dropped)
  {
    var mid, k := pre + [UpdatePod(uid, kind)], Serial(pre);
    FateAtOnce(pre, uid, kind);
    FatesMoveForward(mid, ForgetWorker(uid), k);
    DroppedByForget(mid, ForgetWorker(uid), k);
    EveryRunKeepsInv(mid);
    EveryRequestIsAccountedFor(mid);
    SlotEntry(Run(INITIAL, mid), History(mid), k);
  }

  /** The least such run: the kill comes while the pod's first update is in its channel. */
  lemma KillMayBeDropped(uid: Uid)
    ensures var h := History([UpdatePod(uid, Update)] + [UpdatePod(uid, Kill)] + [ForgetWorker(uid)]);
            |h| > 1 && h[1] == Entry(Request(1, uid, Kill), Dropped)
  {
    var pre := [UpdatePod(uid, Update)];
    assert pre[..0] == [];
    assert Run(INITIAL, []) == INITIAL;
    assert Run(INITIAL, pre) == UpdatePodStep(INITIAL, uid, Update);
    ForgetDropsRequest(pre, uid, Kill);
  }

  // ---------- Coming to rest ----------

  lemma {:induction false} RunConcat(s: State, a: seq<Event>, b: seq<Event>)
    ensures Run(s, a + b) == Run(Run(s, a), b)
    decreases |b|
  {
    if b == [] {
      assert a + b == a;
    } else {
      assert (a + b)[..|a + b| - 1] == a + b[..|b| - 1];
      RunConcat(s, a, b[..|b| - 1]);
    }
  }

  /** From every state the goroutines can be let run until they rest. */
  lemma {:induction false} ComesToRest(s: State) returns (events: seq<Event>)
    requires Inv(s)
    ensures Quiescent(Run(s, events))
    decreases Remaining(s)
  {
    if Quiescent(s) {
      events := [];
    } else {
      var e :| IsWorkerStep(e) && Enabled(s, e);
      WorkerStepKeepsInv(s, e);
      WorkerStepMakesProgress(s, e);
      var rest := ComesToRest(Step(s, e));
      events := [e] + rest;
      assert [e][..0] == [];
      assert Run(s, [e]) == Step(s, e);
      RunConcat(s, [e], rest);
    }
  }

  lemma RestAfter(events: seq<Event>, start: seq<Event>) returns (post: seq<Event>)
    ensures |start| <= |post| && post[..|start|] == start && Quiescent(Run(INITIAL, events + post))
  {
    EveryRunKeepsInv(events + start);
    var rest := ComesToRest(Run(INITIAL, events + start));
    post := start + rest;
    assert events + post == (events + start) + rest;
    RunConcat(INITIAL, events + start, rest);
  }

  lemma SlotCanBeForgotten(pre: seq<Event>, uid: Uid, post: seq<Event>)
    requires Run(INITIAL, pre).Working(uid) && !KillPending(Run(INITIAL, pre), uid)
    requires post != [] && post[0] == ForgetWorker(uid)
    ensures Forgotten(pre + [UpdatePod(uid, Kill)], post, uid, Serial(pre))
  {
    var mid := pre + [UpdatePod(uid, Kill)];
    FateAtOnce(pre, uid, Kill);
    EveryRunKeepsInv(mid);
    EveryRequestIsAccountedFor(mid);
    SlotEntry(Run(INITIAL, mid), History(mid), Serial(pre));
    assert mid + post[..0] == mid;
    assert ForgottenInSlot(mid, post, uid, Serial(pre), 0);
  }

  /** Some way of going on comes to rest without the request having been processed. */
  lemma KillMayBeLost(pre: seq<Event>, uid: Uid) returns (post: seq<Event>)
    requires Run(INITIAL, pre).Working(uid)
    ensures Quiescent(Run(INITIAL, pre + [UpdatePod(uid, Kill)] + post))
    ensures !Processes(pre + [UpdatePod(uid, Kill)] + post, Serial(pre))
  {
    var mid := pre + [UpdatePod(uid, Kill)];
    if KillPending(Run(INITIAL, pre), uid) {
      post := RestAfter(mid, []);
    } else {
      post := RestAfter(mid, [ForgetWorker(uid)]);
      assert post[0] == post[..1][0];
      SlotCanBeForgotten(pre, uid, post);
    }
    KillIsCarriedOutIff(pre, uid, post);
  }

  /** Read at the call: a kill is carried out however the run goes on exactly if the pod is idle. */
  lemma KillIsSafeIff(pre: seq<Event>, uid: Uid)
    ensures (forall post :: Quiescent(Run(INITIAL, pre + [UpdatePod(uid, Kill)] + post)) ==>
               Processes(pre + [UpdatePod(uid, Kill)] + post, Serial(pre)))
       <==> !Run(INITIAL, pre).Working(uid)
  {
    if Run(INITIAL, pre).Working(uid) {
      var post := KillMayBeLost(pre, uid);
    } else {
      forall post | Quiescent(Run(INITIAL, pre + [UpdatePod(uid, Kill)] + post))
        ensures Processes(pre + [UpdatePod(uid, Kill)] + post, Serial(pre))
      {
        IdlePodIsServed(pre, uid, Kill, post);
      }
    }
  }
}
