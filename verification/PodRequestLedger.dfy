/**
  What becomes of every request made to the pod workers.  The ledger has one entry for each call of
  UpdatePod; it is kept beside the state and proved to agree with it in both directions, so each
  request is in exactly one place: in a channel, with a goroutine, in the undelivered slot, or settled.
 */
module PodRequestLedger {
  import opened Wrappers
  import opened PodWorkers

  datatype Fate =
    | Buffered(c: nat)
    | Running(c: nat)
    | Undelivered
    | Processed
    | Superseded(cause: nat)   // replaced in the slot by a later request
    | Refused(cause: nat)      // ignored because a kill request held the slot
    | Dropped               // in the slot when the worker was forgotten
  {
    predicate Settled() { Processed? || Superseded? || Refused? || Dropped? }
    predicate Delivered() { Buffered? || Running? || Processed? }
  }

  datatype Entry = Entry(request: Request, fate: Fate)

  type Ledger = seq<Entry>

  function Mark(h: Ledger, k: nat, fate: Fate): Ledger {
    if k < |h| then h[k := h[k].(fate := fate)] else h
  }

  function RecordUpdate(s: State, h: Ledger, r: Request): Ledger {
    if !s.Working(r.uid) then
      h + [Entry(r, Buffered(if r.uid in s.podUpdates then s.podUpdates[r.uid] else |s.channels|))]
    else if r.uid !in s.undelivered then
      h + [Entry(r, Undelivered)]
    else if s.undelivered[r.uid].kind == Kill then
      h + [Entry(r, Refused(s.undelivered[r.uid].serial))]
    else
      Mark(h, s.undelivered[r.uid].serial, Superseded(r.serial)) + [Entry(r, Undelivered)]
  }

  function RecordForget(s: State, h: Ledger, uids: set<Uid>): Ledger {
    seq(|h|, k requires 0 <= k < |h| =>
      var u := h[k].request.uid;
      if u in uids && u in s.podUpdates && u in s.undelivered && s.undelivered[u].serial == k
      then h[k].(fate := Dropped) else h[k])
  }

  function RecordWrapUp(s: State, h: Ledger, c: nat): Ledger
    requires Enabled(s, WrapUp(c))
  {
    var job := s.channels[c].worker.job;
    var h := Mark(h, job.serial, Processed);
    if job.uid in s.undelivered && job.uid in s.podUpdates
    then Mark(h, s.undelivered[job.uid].serial, Buffered(s.podUpdates[job.uid])) else h
  }

  function Record(s: State, h: Ledger, e: Event): Ledger {
    if !Enabled(s, e) then h
    else match e
      case UpdatePod(uid, kind) => RecordUpdate(s, h, Request(s.submitted, uid, kind))
      case ForgetWorker(uid) => RecordForget(s, h, {uid})
      case ForgetNonExistingPodWorkers(desired) => RecordForget(s, h, s.podUpdates.Keys - desired)
      case Receive(c) =>
        if s.channels[c].buffer.Some? then Mark(h, s.channels[c].buffer.value.serial, Running(c)) else h
      case FinishSync(c) => h
      case WrapUp(c) => RecordWrapUp(s, h, c)
  }

  function History(events: seq<Event>): Ledger
    decreases |events|
  {
    if events == [] then []
    else
      var past := events[..|events| - 1];
      Record(Run(INITIAL, past), History(past), events[|events| - 1])
  }

  // ---------- Agreement of the ledger with the state ----------

  /** What an entry says about the ledger it is in. */
  ghost predicate EntryOk(h: Ledger, k: nat)
    requires k < |h|
  {
    && h[k].request.serial == k
    && match h[k].fate
       case Superseded(cause) =>
         k < cause < |h| && h[cause].request.uid == h[k].request.uid && h[k].request.kind != Kill
       case Refused(cause) =>
         && cause < k && h[cause].request.uid == h[k].request.uid
         && h[cause].request.kind == Kill && !h[cause].fate.Refused?
       case _ => true
  }

  /** A pending entry is where it says it is. */
  ghost predicate Backed(s: State, entry: Entry) {
    match entry.fate
    case Buffered(c) => c < |s.channels| && s.channels[c].buffer == Some(entry.request)
    case Running(c) => c < |s.channels| && s.channels[c].Busy() && s.channels[c].worker.job == entry.request
    case Undelivered => entry.request.uid in s.undelivered && s.undelivered[entry.request.uid] == entry.request
    case _ => true
  }

  ghost predicate Has(h: Ledger, r: Request, fate: Fate) {
    r.serial < |h| && h[r.serial] == Entry(r, fate)
  }

  /** Everything the state holds is in the ledger, under the place that holds it. */
  ghost predicate ChannelsRecorded(channels: seq<Channel>, h: Ledger) {
    forall c :: 0 <= c < |channels| ==>
      && (channels[c].buffer.Some? ==> Has(h, channels[c].buffer.value, Buffered(c)))
      && (channels[c].Busy() ==> Has(h, channels[c].worker.job, Running(c)))
  }

  ghost predicate SlotsRecorded(undelivered: map<Uid, Request>, h: Ledger) {
    forall u <- undelivered :: Has(h, undelivered[u], Undelivered)
  }

  /**
    Once a request has been delivered, every earlier request for the same pod is settled; while one is
    in the slot, every later request for the same pod has been refused.
   */
  ghost predicate InOrder(h: Ledger) {
    forall j, k :: 0 <= j < k < |h| && h[j].request.uid == h[k].request.uid ==>
      && (h[k].fate.Delivered() ==> h[j].fate.Settled())
      && (h[j].fate.Undelivered? ==> h[k].fate.Refused?)
  }

  ghost predicate EntriesOk(h: Ledger) {
    forall k :: 0 <= k < |h| ==> EntryOk(h, k)
  }

  ghost predicate AllBacked(s: State, h: Ledger) {
    forall k :: 0 <= k < |h| ==> Backed(s, h[k])
  }

  ghost predicate Faithful(s: State, h: Ledger) {
    && |h| == s.submitted
    && EntriesOk(h)
    && AllBacked(s, h)
    && ChannelsRecorded(s.channels, h)
    && SlotsRecorded(s.undelivered, h)
    && InOrder(h)
  }

  // ---------- Every event keeps the agreement ----------

  /** No request of an idle pod is pending anywhere. */
  lemma IdleMeansSettled(s: State, h: Ledger, k: nat)
    requires Inv(s) && Faithful(s, h) && k < |h| && !s.Working(h[k].request.uid)
    ensures h[k].fate.Settled()
  {
    assert Backed(s, h[k]);
    match h[k].fate
    case Buffered(c) => TokensAtLeast(s.channels, c, c);
    case Running(c) => TokensAtLeast(s.channels, c, c);
    case _ =>
  }

  /** While a goroutine wraps up, its pod's only other pending request is the one in the slot. */
  lemma WrapUpMeansSettled(s: State, h: Ledger, c: nat, k: nat)
    requires Inv(s) && Faithful(s, h) && Enabled(s, WrapUp(c))
    requires k < |h| && h[k].request.uid == s.channels[c].owner
    ensures h[k].fate.Settled() || h[k].fate.Undelivered? || h[k].request == s.channels[c].worker.job
  {
    assert Backed(s, h[k]);
    match h[k].fate
    case Buffered(d) => TokensAtLeast(s.channels, if c < d then c else d, if c < d then d else c);
    case Running(d) => TokensAtLeast(s.channels, if c < d then c else d, if c < d then d else c);
    case _ =>
  }

  lemma UpdateKeepsEntries(s: State, h: Ledger, r: Request)
    requires EntriesOk(h) && SlotsRecorded(s.undelivered, h) && r.serial == |h|
    requires forall u <- s.undelivered :: s.undelivered[u].uid == u
    ensures EntriesOk(RecordUpdate(s, h, r))
  {
    var h' := RecordUpdate(s, h, r);
    forall k | 0 <= k < |h'| ensures EntryOk(h', k) {
      if k < |h| { assert EntryOk(h, k); }
    }
  }

  lemma UpdateKeepsOrder(s: State, h: Ledger, r: Request)
    requires Inv(s) && Faithful(s, h) && r.serial == |h|
    ensures InOrder(RecordUpdate(s, h, r))
  {
    var h' := RecordUpdate(s, h, r);
    if !s.Working(r.uid) {
      forall k | 0 <= k < |h| && h[k].request.uid == r.uid ensures h'[k].fate.Settled() {
        IdleMeansSettled(s, h, k);
      }
    }
  }

  lemma FirstDeliveryBacked(s: State, h: Ledger, r: Request)
    requires AllBacked(s, h) && s.CanSend(r.uid)
    ensures AllBacked(Send(s, r.uid, r), h + [Entry(r, Buffered(s.podUpdates[r.uid]))])
  {
    var h' := h + [Entry(r, Buffered(s.podUpdates[r.uid]))];
    forall k | 0 <= k < |h'| ensures Backed(Send(s, r.uid, r), h'[k]) {
      if k < |h| { assert Backed(s, h[k]); }
    }
  }

  lemma EnsureWorkerKeepsLedger(s: State, h: Ledger, uid: Uid, submitted: nat)
    requires AllBacked(s, h) && ChannelsRecorded(s.channels, h)
    ensures var t := EnsureWorker(s.(submitted := submitted), uid);
      && AllBacked(t, h) && ChannelsRecorded(t.channels, h)
      && t.undelivered == s.undelivered && t.isWorking == s.isWorking
  {
    var t := EnsureWorker(s.(submitted := submitted), uid);
    forall k | 0 <= k < |h| ensures Backed(t, h[k]) {
      assert Backed(s, h[k]);
    }
  }

  lemma BackedUnderFlag(s: State, h: Ledger, isWorking: map<Uid, bool>)
    requires AllBacked(s, h)
    ensures AllBacked(s.(isWorking := isWorking), h)
  {
    forall k | 0 <= k < |h| ensures Backed(s.(isWorking := isWorking), h[k]) {
      assert Backed(s, h[k]);
    }
  }

  lemma FirstDeliveryRecorded(channels: seq<Channel>, h: Ledger, d: nat, r: Request)
    requires ChannelsRecorded(channels, h) && d < |channels| && channels[d].buffer.None? && r.serial == |h|
    ensures ChannelsRecorded(channels[d := channels[d].(buffer := Some(r))], h + [Entry(r, Buffered(d))])
  {
  }

  lemma SlotsStayRecorded(undelivered: map<Uid, Request>, h: Ledger, entry: Entry)
    requires SlotsRecorded(undelivered, h)
    ensures SlotsRecorded(undelivered, h + [entry])
  {
  }

  lemma UpdateOfIdleAgrees(s: State, h: Ledger, r: Request)
    requires AllBacked(s, h) && ChannelsRecorded(s.channels, h) && SlotsRecorded(s.undelivered, h)
    requires !s.Working(r.uid) && s.CanSend(r.uid) && r.serial == |h|
    ensures var h' := h + [Entry(r, Buffered(s.podUpdates[r.uid]))];
      && AllBacked(Accept(s, r), h')
      && ChannelsRecorded(Accept(s, r).channels, h') && SlotsRecorded(Accept(s, r).undelivered, h')
  {
    var t := s.(isWorking := s.isWorking[r.uid := true]);
    BackedUnderFlag(s, h, s.isWorking[r.uid := true]);
    FirstDeliveryBacked(t, h, r);
    FirstDeliveryRecorded(s.channels, h, s.podUpdates[r.uid], r);
    SlotsStayRecorded(s.undelivered, h, Entry(r, Buffered(s.podUpdates[r.uid])));
  }

  lemma UpdateOfIdleIsRecorded(s: State, h: Ledger, uid: Uid, kind: SyncKind)
    requires Inv(s) && Faithful(s, h) && !s.Working(uid)
    ensures Faithful(UpdatePodStep(s, uid, kind), RecordUpdate(s, h, Request(s.submitted, uid, kind)))
  {
    var r := Request(s.submitted, uid, kind);
    UpdatePodCanSend(s, uid, s.submitted + 1);
    UpdateKeepsEntries(s, h, r);
    UpdateKeepsOrder(s, h, r);
    EnsureWorkerKeepsLedger(s, h, uid, s.submitted + 1);
    var t := EnsureWorker(s.(submitted := s.submitted + 1), uid);
    UpdateOfIdleAgrees(t, h, r);
    assert UpdatePodStep(s, uid, kind) == Accept(t, r);
    assert RecordUpdate(s, h, r) == h + [Entry(r, Buffered(t.podUpdates[uid]))];
  }

  lemma UpdateOfWorkingIsBacked(s: State, h: Ledger, r: Request)
    requires AllBacked(s, h) && EntriesOk(h) && s.Working(r.uid) && r.serial == |h|
    ensures AllBacked(Accept(s, r), RecordUpdate(s, h, r))
  {
    var h' := RecordUpdate(s, h, r);
    forall k | 0 <= k < |h'| ensures Backed(Accept(s, r), h'[k]) {
      if k < |h| { assert EntryOk(h, k) && Backed(s, h[k]); }
    }
  }

  /** A new entry, and the fate of one that was in no channel, leave what is said of the channels. */
  lemma ChannelsStayRecorded(channels: seq<Channel>, h: Ledger, k: nat, cause: nat, entry: Entry)
    requires ChannelsRecorded(channels, h)
    ensures ChannelsRecorded(channels, h + [entry])
    ensures k < |h| && h[k].fate.Undelivered? ==> ChannelsRecorded(channels, Mark(h, k, Superseded(cause)) + [entry])
  {
  }

  lemma UpdateOfWorkingAgrees(s: State, h: Ledger, r: Request)
    requires ChannelsRecorded(s.channels, h) && SlotsRecorded(s.undelivered, h)
    requires forall u <- s.undelivered :: s.undelivered[u].uid == u
    requires s.Working(r.uid) && r.serial == |h|
    ensures ChannelsRecorded(Accept(s, r).channels, RecordUpdate(s, h, r))
    ensures SlotsRecorded(Accept(s, r).undelivered, RecordUpdate(s, h, r))
  {
    if r.uid in s.undelivered {
      var slot := s.undelivered[r.uid];
      assert Has(h, slot, Undelivered);
      ChannelsStayRecorded(s.channels, h, slot.serial, r.serial, Entry(r, Undelivered));
      ChannelsStayRecorded(s.channels, h, slot.serial, r.serial, Entry(r, Refused(slot.serial)));
    } else {
      ChannelsStayRecorded(s.channels, h, 0, r.serial, Entry(r, Undelivered));
    }
  }

  lemma UpdateOfWorkingIsRecorded(s: State, h: Ledger, uid: Uid, kind: SyncKind)
    requires Inv(s) && Faithful(s, h) && s.Working(uid)
    ensures Faithful(UpdatePodStep(s, uid, kind), RecordUpdate(s, h, Request(s.submitted, uid, kind)))
  {
    var r := Request(s.submitted, uid, kind);
    UpdateKeepsEntries(s, h, r);
    UpdateKeepsOrder(s, h, r);
    EnsureWorkerKeepsLedger(s, h, uid, s.submitted + 1);
    var t := EnsureWorker(s.(submitted := s.submitted + 1), uid);
    assert RecordUpdate(t, h, r) == RecordUpdate(s, h, r);
    UpdateOfWorkingIsBacked(t, h, r);
    UpdateOfWorkingAgrees(t, h, r);
    assert UpdatePodStep(s, uid, kind) == Accept(t, r);
  }

  lemma ForgetKeepsHistory(s: State, h: Ledger, uids: set<Uid>)
    requires Inv(s) && Faithful(s, h)
    ensures EntriesOk(RecordForget(s, h, uids)) && InOrder(RecordForget(s, h, uids))
  {
    var h' := RecordForget(s, h, uids);
    forall k | 0 <= k < |h'| ensures EntryOk(h', k) {
      assert EntryOk(h, k);
    }
  }

  lemma ForgetIsBacked(s: State, h: Ledger, uids: set<Uid>)
    requires EntriesOk(h) && AllBacked(s, h)
    ensures AllBacked(Forget(s, uids), RecordForget(s, h, uids))
  {
    var h' := RecordForget(s, h, uids);
    forall k | 0 <= k < |h'| ensures Backed(Forget(s, uids), h'[k]) {
      assert EntryOk(h, k) && Backed(s, h[k]);
    }
  }

  lemma ForgetAgrees(s: State, h: Ledger, uids: set<Uid>)
    requires ChannelsRecorded(s.channels, h) && SlotsRecorded(s.undelivered, h)
    requires forall u <- s.undelivered :: s.undelivered[u].uid == u
    ensures ChannelsRecorded(Forget(s, uids).channels, RecordForget(s, h, uids))
    ensures SlotsRecorded(Forget(s, uids).undelivered, RecordForget(s, h, uids))
  {
    forall u | u in s.undelivered ensures Has(h, s.undelivered[u], Undelivered) {}
  }

  lemma ForgetIsRecorded(s: State, h: Ledger, uids: set<Uid>)
    requires Inv(s) && Faithful(s, h)
    ensures Faithful(Forget(s, uids), RecordForget(s, h, uids))
  {
    ForgetKeepsHistory(s, h, uids);
    ForgetIsBacked(s, h, uids);
    ForgetAgrees(s, h, uids);
  }

  lemma ReceiveKeepsHistory(s: State, h: Ledger, c: nat)
    requires Faithful(s, h) && Enabled(s, Receive(c))
    ensures EntriesOk(Record(s, h, Receive(c))) && InOrder(Record(s, h, Receive(c)))
  {
    var h' := Record(s, h, Receive(c));
    assert s.channels[c].buffer.Some? ==> Has(h, s.channels[c].buffer.value, Buffered(c));
    forall k | 0 <= k < |h'| ensures EntryOk(h', k) {
      assert EntryOk(h, k);
    }
  }

  lemma ReceiveIsBacked(s: State, h: Ledger, c: nat)
    requires EntriesOk(h) && AllBacked(s, h) && ChannelsRecorded(s.channels, h) && Enabled(s, Receive(c))
    ensures AllBacked(ReceiveStep(s, c), Record(s, h, Receive(c)))
  {
    var h' := Record(s, h, Receive(c));
    assert s.channels[c].buffer.Some? ==> Has(h, s.channels[c].buffer.value, Buffered(c));
    forall k | 0 <= k < |h'| ensures Backed(ReceiveStep(s, c), h'[k]) {
      assert EntryOk(h, k) && Backed(s, h[k]);
    }
  }

  lemma ReceiveAgrees(s: State, h: Ledger, c: nat)
    requires ChannelsRecorded(s.channels, h) && SlotsRecorded(s.undelivered, h) && Enabled(s, Receive(c))
    ensures ChannelsRecorded(ReceiveStep(s, c).channels, Record(s, h, Receive(c)))
    ensures SlotsRecorded(s.undelivered, Record(s, h, Receive(c)))
  {
    assert s.channels[c].buffer.Some? ==> Has(h, s.channels[c].buffer.value, Buffered(c));
  }

  lemma ReceiveIsRecorded(s: State, h: Ledger, c: nat)
    requires Inv(s) && Faithful(s, h) && Enabled(s, Receive(c))
    ensures Faithful(ReceiveStep(s, c), Record(s, h, Receive(c)))
  {
    ReceiveKeepsHistory(s, h, c);
    ReceiveIsBacked(s, h, c);
    ReceiveAgrees(s, h, c);
  }

  lemma FinishSyncIsRecorded(s: State, h: Ledger, c: nat)
    requires Inv(s) && Faithful(s, h) && Enabled(s, FinishSync(c))
    ensures Faithful(FinishSyncStep(s, c), h)
  {
    forall k | 0 <= k < |h| ensures Backed(FinishSyncStep(s, c), h[k]) {
      assert Backed(s, h[k]);
    }
  }

  lemma WrapUpIsBacked(s: State, h: Ledger, c: nat)
    requires EntriesOk(h) && AllBacked(s, h) && Enabled(s, WrapUp(c))
    requires ChannelsRecorded(s.channels, h) && SlotsRecorded(s.undelivered, h)
    requires s.channels[c].worker.job.uid in s.undelivered ==> Released(s, c).CanSend(s.channels[c].worker.job.uid)
    ensures AllBacked(WrapUpStep(s, c), RecordWrapUp(s, h, c))
  {
    var h' := RecordWrapUp(s, h, c);
    forall k | 0 <= k < |h'| ensures Backed(WrapUpStep(s, c), h'[k]) {
      assert EntryOk(h, k) && Backed(s, h[k]);
    }
  }

  lemma WrapUpKeepsEntries(s: State, h: Ledger, c: nat)
    requires EntriesOk(h) && ChannelsRecorded(s.channels, h) && SlotsRecorded(s.undelivered, h) && Enabled(s, WrapUp(c))
    ensures EntriesOk(RecordWrapUp(s, h, c))
  {
    var h' := RecordWrapUp(s, h, c);
    forall k | 0 <= k < |h'| ensures EntryOk(h', k) {
      assert EntryOk(h, k);
    }
  }

  /** The requests of other pods keep their fates; those of this pod are settled, but for the one in the slot. */
  lemma WrapUpFates(s: State, h: Ledger, c: nat, k: nat)
    requires Inv(s) && Faithful(s, h) && Enabled(s, WrapUp(c)) && k < |h|
    ensures var h', uid := RecordWrapUp(s, h, c), s.channels[c].owner;
      && |h'| == |h| && h'[k].request == h[k].request
      && (h[k].request.uid != uid ==> h'[k] == h[k])
      && (h[k].request.uid == uid ==> h'[k].fate.Settled() || (uid in s.undelivered && s.undelivered[uid].serial == k))
  {
    assert EntryOk(h, k) && Backed(s, h[k]);
    if h[k].request.uid == s.channels[c].owner { WrapUpMeansSettled(s, h, c, k); }
  }

  lemma WrapUpSlot(s: State, h: Ledger, c: nat, k: nat)
    requires Inv(s) && Faithful(s, h) && Enabled(s, WrapUp(c)) && s.channels[c].owner in s.undelivered
    requires k < |h| && h[k].request.uid == s.channels[c].owner && k > s.undelivered[s.channels[c].owner].serial
    ensures RecordWrapUp(s, h, c)[k].fate.Refused?
  {
    var slot := s.undelivered[s.channels[c].owner];
    assert Has(h, slot, Undelivered) && Has(h, s.channels[c].worker.job, Running(c));
    assert h[k].fate.Refused?;
  }

  lemma WrapUpKeepsOrder(s: State, h: Ledger, c: nat)
    requires Inv(s) && Faithful(s, h) && Enabled(s, WrapUp(c))
    ensures InOrder(RecordWrapUp(s, h, c))
  {
    var h' := RecordWrapUp(s, h, c);
    var uid := s.channels[c].owner;
    forall j, k | 0 <= j < k < |h'| && h'[j].request.uid == h'[k].request.uid
      ensures (h'[k].fate.Delivered() ==> h'[j].fate.Settled()) && (h'[j].fate.Undelivered? ==> h'[k].fate.Refused?)
    {
      WrapUpFates(s, h, c, j);
      WrapUpFates(s, h, c, k);
      if h[k].request.uid == uid && uid in s.undelivered && s.undelivered[uid].serial == j {
        WrapUpSlot(s, h, c, k);
      }
    }
  }

  lemma DeliveryRecorded(channels: seq<Channel>, h: Ledger, d: nat, r: Request)
    requires ChannelsRecorded(channels, h) && Has(h, r, Undelivered) && d < |channels| && channels[d].buffer.None?
    ensures ChannelsRecorded(channels[d := channels[d].(buffer := Some(r))], Mark(h, r.serial, Buffered(d)))
  {
  }

  lemma ReleaseRecorded(s: State, h: Ledger, c: nat)
    requires ChannelsRecorded(s.channels, h) && Enabled(s, WrapUp(c))
    ensures ChannelsRecorded(Released(s, c).channels, Mark(h, s.channels[c].worker.job.serial, Processed))
  {
    assert Has(h, s.channels[c].worker.job, Running(c));
  }

  lemma WrapUpChannelsRecorded(s: State, h: Ledger, c: nat)
    requires Inv(s) && Faithful(s, h) && Enabled(s, WrapUp(c))
    ensures ChannelsRecorded(WrapUpStep(s, c).channels, RecordWrapUp(s, h, c))
  {
    ReleaseRecorded(s, h, c);
    var uid := s.channels[c].owner;
    if uid in s.undelivered {
      WrapUpCanSend(s, c);
      var h1 := Mark(h, s.channels[c].worker.job.serial, Processed);
      DeliveryRecorded(Released(s, c).channels, h1, s.podUpdates[uid], s.undelivered[uid]);
    }
  }

  lemma WrapUpSlotsRecorded(s: State, h: Ledger, c: nat)
    requires Inv(s) && ChannelsRecorded(s.channels, h) && SlotsRecorded(s.undelivered, h) && Enabled(s, WrapUp(c))
    ensures SlotsRecorded(WrapUpStep(s, c).undelivered, RecordWrapUp(s, h, c))
  {
    assert Has(h, s.channels[c].worker.job, Running(c));
  }

  lemma WrapUpIsRecorded(s: State, h: Ledger, c: nat)
    requires Inv(s) && Faithful(s, h) && Enabled(s, WrapUp(c))
    ensures Faithful(WrapUpStep(s, c), RecordWrapUp(s, h, c))
  {
    if s.channels[c].owner in s.undelivered { WrapUpCanSend(s, c); }
    WrapUpIsBacked(s, h, c);
    WrapUpKeepsEntries(s, h, c);
    WrapUpKeepsOrder(s, h, c);
    WrapUpSlotsRecorded(s, h, c);
    WrapUpChannelsRecorded(s, h, c);
  }

  lemma StepIsRecorded(s: State, h: Ledger, e: Event)
    requires Inv(s) && Faithful(s, h)
    ensures Faithful(Step(s, e), Record(s, h, e))
  {
    if Enabled(s, e) {
      match e
      case UpdatePod(uid, kind) =>
        if s.Working(uid) {
          UpdateOfWorkingIsRecorded(s, h, uid, kind);
        } else {
          UpdateOfIdleIsRecorded(s, h, uid, kind);
        }
      case ForgetWorker(uid) => ForgetIsRecorded(s, h, {uid});
      case ForgetNonExistingPodWorkers(desired) => ForgetIsRecorded(s, h, s.podUpdates.Keys - desired);
      case Receive(c) => ReceiveIsRecorded(s, h, c);
      case FinishSync(c) => FinishSyncIsRecorded(s, h, c);
      case WrapUp(c) => WrapUpIsRecorded(s, h, c);
    }
  }

  // ---------- The main results ----------

  /** In every run the ledger and the state agree: no request is lost, duplicated or in two places. */
  lemma {:induction false} EveryRequestIsAccountedFor(events: seq<Event>)
    ensures Faithful(Run(INITIAL, events), History(events))
    decreases |events|
  {
    if events != [] {
      var past := events[..|events| - 1];
      EveryRequestIsAccountedFor(past);
      EveryRunKeepsInv(past);
      StepIsRecorded(Run(INITIAL, past), History(past), events[|events| - 1]);
    }
  }

  /** How a fate may change in one event: settled is final, and a request leaves the slot in three ways only. */
  ghost predicate MayBecome(before: Fate, after: Fate, kind: SyncKind, e: Event) {
    || before == after
    || (before.Buffered? && after == Running(before.c) && e == Receive(before.c))
    || (before.Running? && after == Processed && e == WrapUp(before.c))
    || (before.Undelivered? && after.Buffered? && e.WrapUp?)
    || (before.Undelivered? && after.Superseded? && e.UpdatePod? && kind != Kill)
    || (before.Undelivered? && after.Dropped? && (e.ForgetWorker? || e.ForgetNonExistingPodWorkers?))
  }

  lemma FatesMove(s: State, h: Ledger, e: Event, k: nat)
    requires Inv(s) && Faithful(s, h) && k < |h|
    ensures |h| <= |Record(s, h, e)| && Record(s, h, e)[k].request == h[k].request
    ensures MayBecome(h[k].fate, Record(s, h, e)[k].fate, h[k].request.kind, e)
  {
    assert EntryOk(h, k) && Backed(s, h[k]);
    if Enabled(s, e) {
      match e
      case UpdatePod(uid, kind) => UpdateMovesFates(s, h, Request(s.submitted, uid, kind), k);
      case WrapUp(c) => WrapUpMovesFates(s, h, c, k);
      case _ =>
    }
  }

  lemma UpdateMovesFates(s: State, h: Ledger, r: Request, k: nat)
    requires SlotsRecorded(s.undelivered, h) && k < |h|
    ensures |h| <= |RecordUpdate(s, h, r)| && RecordUpdate(s, h, r)[k].request == h[k].request
    ensures MayBecome(h[k].fate, RecordUpdate(s, h, r)[k].fate, h[k].request.kind, UpdatePod(r.uid, r.kind))
  {
    if r.uid in s.undelivered { assert Has(h, s.undelivered[r.uid], Undelivered); }
  }

  lemma WrapUpMovesFates(s: State, h: Ledger, c: nat, k: nat)
    requires ChannelsRecorded(s.channels, h) && SlotsRecorded(s.undelivered, h) && k < |h| && Enabled(s, WrapUp(c))
    ensures |h| == |RecordWrapUp(s, h, c)| && RecordWrapUp(s, h, c)[k].request == h[k].request
    ensures MayBecome(h[k].fate, RecordWrapUp(s, h, c)[k].fate, h[k].request.kind, WrapUp(c))
  {
    assert Has(h, s.channels[c].worker.job, Running(c));
    var uid := s.channels[c].worker.job.uid;
    if uid in s.undelivered { assert Has(h, s.undelivered[uid], Undelivered); }
  }

  lemma FatesMoveForward(events: seq<Event>, e: Event, k: nat)
    requires k < |History(events)|
    ensures |History(events)| <= |History(events + [e])|
    ensures History(events + [e])[k].request == History(events)[k].request
    ensures MayBecome(History(events)[k].fate, History(events + [e])[k].fate, History(events)[k].request.kind, e)
  {
    assert (events + [e])[..|events|] == events;
    EveryRunKeepsInv(events);
    EveryRequestIsAccountedFor(events);
    FatesMove(Run(INITIAL, events), History(events), e, k);
  }

  /** Updates of one pod are processed in the order they were submitted. */
  lemma ProcessedInOrder(events: seq<Event>, j: nat, k: nat)
    requires var h := History(events);
             j < k < |h| && h[j].request.uid == h[k].request.uid && h[k].fate.Delivered()
    ensures History(events)[j].fate.Settled()
  {
    EveryRequestIsAccountedFor(events);
  }

  /** While a kill waits in the slot it stays there, and nothing submitted later for that pod is delivered. */
  lemma PendingKillGoesNext(events: seq<Event>, k: nat, m: nat)
    requires var h := History(events);
             k < |h| && h[k].request.kind == Kill && h[k].fate.Undelivered?
    ensures var s, h := Run(INITIAL, events), History(events);
      && h[k].request.uid in s.undelivered && s.undelivered[h[k].request.uid] == h[k].request
      && (k < m < |h| && h[m].request.uid == h[k].request.uid ==> h[m].fate.Refused?)
  {
    EveryRequestIsAccountedFor(events);
    EveryRunKeepsInv(events);
    var s, h := Run(INITIAL, events), History(events);
    assert EntryOk(h, k) && Backed(s, h[k]);
  }

  /** When no goroutine can take a step, every request ever made is settled. */
  lemma QuiescentMeansSettled(events: seq<Event>, k: nat)
    requires Quiescent(Run(INITIAL, events)) && k < |History(events)|
    ensures History(events)[k].fate.Settled()
    ensures History(events)[k].request.kind == Kill ==> !History(events)[k].fate.Superseded?
  {
    EveryRunKeepsInv(events);
    EveryRequestIsAccountedFor(events);
    QuiescentMeansDrained(Run(INITIAL, events));
    var s, h := Run(INITIAL, events), History(events);
    assert EntryOk(h, k);
    IdleMeansSettled(s, h, k);
  }

  lemma OneMore(events: seq<Event>, e: Event)
    ensures Run(INITIAL, events + [e]) == Step(Run(INITIAL, events), e)
    ensures History(events + [e]) == Record(Run(INITIAL, events), History(events), e)
  {
    assert (events + [e])[..|events|] == events;
  }
}
