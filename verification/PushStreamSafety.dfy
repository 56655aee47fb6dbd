/** What every run of the push streams keeps, and what follows from it. */
module PushStreamSafety {

  import opened ChangeBus
  import opened PushStream

  // ---------- the history of one topic in one stream ----------

  /** The versions carried by the frames of one topic, in sending order. */
  function Marks(frames: seq<Frame>, topic: nat): seq<nat> {
    if frames == [] then []
    else
      var before, last := Marks(frames[..|frames| - 1], topic), frames[|frames| - 1];
      if last.TopicFrame? && last.topic == topic then before + [last.at] else before
  }

  function LastOr(low: nat, marks: seq<nat>): nat {
    if marks == [] then low else marks[|marks| - 1]
  }

  /** Every mark is above the one before it, and the first above `low`. */
  predicate Climbs(low: nat, marks: seq<nat>) {
    marks != [] ==>
      var before := marks[..|marks| - 1];
      Climbs(low, before) && LastOr(low, before) < marks[|marks| - 1]
  }

  function LastStatus(frames: seq<Frame>): string {
    if frames == [] then []
    else if frames[|frames| - 1].StatusFrame? then frames[|frames| - 1].json
    else LastStatus(frames[..|frames| - 1])
  }

  predicate FrameValuesOk(frames: seq<Frame>) {
    forall f :: f in frames && f.TopicFrame? ==> f.value == f.at % U64_VALUES
  }

  lemma MarksAfterEmit(frames: seq<Frame>, f: Frame, topic: nat)
    ensures Marks(frames + [f], topic)
         == Marks(frames, topic) + if f.TopicFrame? && f.topic == topic then [f.at] else []
    ensures LastStatus(frames + [f]) == if f.StatusFrame? then f.json else LastStatus(frames)
  {
    assert (frames + [f])[..|frames|] == frames;
  }

  lemma ClimbsAfterOneMore(low: nat, marks: seq<nat>, at: nat)
    requires Climbs(low, marks) && LastOr(low, marks) < at
    ensures Climbs(low, marks + [at])
  {
    assert (marks + [at])[..|marks|] == marks;
  }

  lemma {:induction false} ClimbingMarksAreFew(low: nat, marks: seq<nat>)
    requires Climbs(low, marks)
    ensures low + |marks| <= LastOr(low, marks)
    decreases |marks|
  {
    if marks != [] {
      ClimbingMarksAreFew(low, marks[..|marks| - 1]);
    }
  }

  // ---------- the invariant ----------

  /** Between frames the stream has seen exactly what it last sent, or what it subscribed to; a
      frame in the making has seen something newer. */
  predicate TopicOk(st: Stream, topic: nat, version: nat)
    requires 1 <= topic <= |st.topics| == |st.subscribedAt|
  {
    var low, marks, seen := st.subscribedAt[topic - 1], Marks(st.frames, topic), st.topics[topic - 1];
    && Climbs(low, marks)
    && seen <= version
    && if st.phase == ReadingTopic(topic) then LastOr(low, marks) < seen else LastOr(low, marks) == seen
  }

  predicate TopicsOk(st: Stream, bus: seq<Watch<nat>>)
    requires |bus| == TOPIC_COUNT
  {
    && |st.topics| == |st.subscribedAt| <= PUSHED_TOPICS
    && (IsOpen(st) ==> |st.topics| == PUSHED_TOPICS)
    && (st.phase.ReadingTopic? ==> 1 <= st.phase.topic <= PUSHED_TOPICS)
    && (forall topic :: 1 <= topic <= |st.topics| ==> TopicOk(st, topic, bus[topic].version))
    && FrameValuesOk(st.frames)
  }

  /** With nothing pending, the last status sent is the one in the feed. */
  predicate StatusOk(st: Stream, feed: Watch<string>) {
    && (HasStatusReceiver(st) ==> st.statusSeen <= feed.version)
    && (st.sendStatusFirst ==> st.frames == [] && (IsOpen(st) ==> st.phase.Idle?))
    && (!IsOpen(st) ==> st.sendStatusFirst)
    && (!st.sendStatusFirst && !st.phase.ReadingStatus? && st.statusSeen == feed.version ==>
          LastStatus(st.frames) == feed.value)
  }

  /** How many more frames a stream may send once shutdown has fired. */
  function Budget(st: Stream): nat {
    if st.sendStatusFirst || st.phase.Selecting? || st.phase.ReadingStatus? || st.phase.ReadingTopic? then 1 else 0
  }

  predicate ShutdownOk(st: Stream, shutdown: bool) {
    if shutdown then st.framesAfterShutdown + Budget(st) <= 1 else st.framesAfterShutdown == 0
  }

  predicate StreamOk(st: Stream, s: Service)
    requires |s.bus| == TOPIC_COUNT
  {
    TopicsOk(st, s.bus) && StatusOk(st, s.feed) && ShutdownOk(st, s.shutdown)
  }

  predicate SomeoneAboutToNotify(s: Service) {
    exists id :: id in s.streams && s.streams[id].phase.StatusSubscribed?
  }

  predicate SamplerOk(s: Service) {
    s.sampler.Parking? && AnyReceiver(s) ==> s.permit || SomeoneAboutToNotify(s)
  }

  predicate Inv(s: Service) {
    && BusOk(s.bus)
    && s.freeSlots + |s.streams| == MAX_EVENT_SUBSCRIBERS
    && SamplerOk(s)
    && forall id :: id in s.streams ==> StreamOk(s.streams[id], s)
  }

  // ---------- steps of one stream ----------

  lemma EmitKeepsFrames(st: Stream, f: Frame)
    requires FrameValuesOk(st.frames) && (f.TopicFrame? ==> f.value == f.at % U64_VALUES)
    ensures FrameValuesOk(st.frames + [f])
  {
  }

  /** A frame that is not about a topic leaves every topic's history alone. */
  lemma EmitKeepsTopics(st: Stream, bus: seq<Watch<nat>>, f: Frame, shutdown: bool)
    requires BusOk(bus) && TopicsOk(st, bus) && IsOpen(st) && !st.phase.ReadingTopic? && !f.TopicFrame?
    ensures TopicsOk(Emit(st, f, shutdown), bus)
  {
    EmitKeepsFrames(st, f);
    forall topic | 1 <= topic <= |st.topics|
      ensures TopicOk(Emit(st, f, shutdown), topic, bus[topic].version)
    {
      MarksAfterEmit(st.frames, f, topic);
      assert TopicOk(st, topic, bus[topic].version);
    }
  }

  /** The other fields do not matter to the topics either, as long as no read is under way. */
  lemma TopicsOkIsAboutTopics(st: Stream, st': Stream, bus: seq<Watch<nat>>)
    requires BusOk(bus) && TopicsOk(st, bus) && IsOpen(st) && !st.phase.ReadingTopic?
    requires st'.topics == st.topics && st'.subscribedAt == st.subscribedAt && st'.frames == st.frames
    requires !st'.phase.ReadingTopic?
    ensures TopicsOk(st', bus)
  {
    forall topic | 1 <= topic <= |st.topics|
      ensures TopicOk(st', topic, bus[topic].version)
    {
      assert TopicOk(st, topic, bus[topic].version);
    }
  }

  lemma PolledKeepsTopics(st: Stream, bus: seq<Watch<nat>>, feed: Watch<string>, shutdown: bool)
    requires BusOk(bus) && TopicsOk(st, bus) && st.phase.Idle?
    ensures TopicsOk(Polled(st, feed, shutdown), bus)
  {
    if st.sendStatusFirst {
      var marked := st.(sendStatusFirst := false, statusSeen := feed.version);
      TopicsOkIsAboutTopics(st, marked, bus);
      if feed.value != [] {
        EmitKeepsTopics(marked, bus, StatusFrame(feed.value, feed.version), shutdown);
      } else {
        TopicsOkIsAboutTopics(st, marked.(phase := CheckingShutdown), bus);
      }
    } else {
      TopicsOkIsAboutTopics(st, st.(phase := CheckingShutdown), bus);
    }
  }

  lemma PolledKeepsOk(st: Stream, s: Service)
    requires BusOk(s.bus) && StreamOk(st, s) && st.phase.Idle?
    ensures StreamOk(Polled(st, s.feed, s.shutdown), s)
  {
    MarksAfterEmit(st.frames, StatusFrame(s.feed.value, s.feed.version), 0);
    PolledKeepsTopics(st, s.bus, s.feed, s.shutdown);
  }

  lemma StatusReadKeepsOk(st: Stream, s: Service)
    requires BusOk(s.bus) && StreamOk(st, s) && st.phase.ReadingStatus?
    ensures StreamOk(StatusRead(st, s.feed, s.shutdown), s)
  {
    var f := StatusFrame(s.feed.value, s.feed.version);
    var marked := st.(statusSeen := s.feed.version);
    MarksAfterEmit(st.frames, f, 0);
    TopicsOkIsAboutTopics(st, marked, s.bus);
    EmitKeepsTopics(marked, s.bus, f, s.shutdown);
  }

  lemma PingKeepsOk(st: Stream, s: Service)
    requires BusOk(s.bus) && StreamOk(st, s) && st.phase.Selecting?
    ensures StreamOk(Emit(st, PingFrame, s.shutdown), s)
  {
    EmitKeepsTopics(st, s.bus, PingFrame, s.shutdown);
    EmitKeepsStatusAndShutdown(st, PingFrame, s);
  }

  lemma TopicChangedKeepsOk(st: Stream, s: Service, t: nat)
    requires BusOk(s.bus) && StreamOk(st, s) && st.phase.Selecting?
    requires 1 <= t <= |st.topics| && st.topics[t - 1] != s.bus[t].version
    ensures StreamOk(TopicChanged(st, t, s.bus[t]), s)
  {
    forall topic | 1 <= topic <= |st.topics|
      ensures TopicOk(TopicChanged(st, t, s.bus[t]), topic, s.bus[topic].version)
    {
      assert TopicOk(st, topic, s.bus[topic].version);
    }
  }

  lemma TopicReadKeepsTopics(st: Stream, bus: seq<Watch<nat>>, t: nat, shutdown: bool)
    requires BusOk(bus) && TopicsOk(st, bus) && st.phase == ReadingTopic(t) && 1 <= t <= |st.topics|
    ensures TopicsOk(TopicRead(st, t, bus[t], shutdown), bus)
  {
    var after := TopicRead(st, t, bus[t], shutdown);
    var f := TopicFrame(t, bus[t].value, bus[t].version);
    EmitKeepsFrames(st, f);
    forall topic | 1 <= topic <= |st.topics|
      ensures TopicOk(after, topic, bus[topic].version)
    {
      MarksAfterEmit(st.frames, f, topic);
      assert TopicOk(st, topic, bus[topic].version);
      if topic == t {
        ClimbsAfterOneMore(st.subscribedAt[t - 1], Marks(st.frames, t), bus[t].version);
      }
    }
  }

  lemma EmitKeepsStatusAndShutdown(st: Stream, f: Frame, s: Service)
    requires StatusOk(st, s.feed) && ShutdownOk(st, s.shutdown) && IsOpen(st) && !st.sendStatusFirst
    requires !f.StatusFrame? && (st.phase.Selecting? || st.phase.ReadingTopic?)
    ensures StatusOk(Emit(st, f, s.shutdown), s.feed) && ShutdownOk(Emit(st, f, s.shutdown), s.shutdown)
  {
    MarksAfterEmit(st.frames, f, 0);
  }

  lemma TopicReadKeepsOk(st: Stream, s: Service, t: nat)
    requires BusOk(s.bus) && StreamOk(st, s) && st.phase == ReadingTopic(t) && 1 <= t <= |st.topics|
    ensures StreamOk(TopicRead(st, t, s.bus[t], s.shutdown), s)
  {
    TopicReadKeepsTopics(st, s.bus, t, s.shutdown);
    var marked := st.(topics := st.topics[t - 1 := s.bus[t].version]);
    EmitKeepsStatusAndShutdown(marked, TopicFrame(t, s.bus[t].value, s.bus[t].version), s);
  }

  lemma SubscribesTopicKeepsOk(st: Stream, s: Service)
    requires BusOk(s.bus) && StreamOk(st, s) && st.phase.SubscribingTopics? && |st.topics| < PUSHED_TOPICS
    ensures var seen := s.bus[|st.topics| + 1].version;
            StreamOk(st.(topics := st.topics + [seen], subscribedAt := st.subscribedAt + [seen]), s)
  {
    var seen := s.bus[|st.topics| + 1].version;
    var after := st.(topics := st.topics + [seen], subscribedAt := st.subscribedAt + [seen]);
    assert st.frames == [];
    forall topic | 1 <= topic <= |after.topics|
      ensures TopicOk(after, topic, s.bus[topic].version)
    {
      if topic <= |st.topics| {
        assert TopicOk(st, topic, s.bus[topic].version);
      }
    }
  }

  // ---------- steps of the service ----------

  lemma MovesKeepsSampler(s: Service, id: nat, st: Stream)
    requires SamplerOk(s) && id in s.streams
    requires HasStatusReceiver(st) == HasStatusReceiver(s.streams[id])
    requires s.streams[id].phase.StatusSubscribed? ==> s.permit
    ensures SamplerOk(Moves(s, id, st))
  {
    var s' := Moves(s, id, st);
    if s'.sampler.Parking? && AnyReceiver(s') {
      var r :| r in s'.streams && HasStatusReceiver(s'.streams[r]);
      assert HasStatusReceiver(s.streams[r]);
      if !s.permit {
        var n :| n in s.streams && s.streams[n].phase.StatusSubscribed?;
        assert n in s'.streams && s'.streams[n].phase.StatusSubscribed?;
      }
    }
  }

  lemma SameKeysSameSize<K, V>(a: map<K, V>, b: map<K, V>)
    requires a.Keys == b.Keys
    ensures |a| == |b|
  {
    assert |a| == |a.Keys| && |b| == |b.Keys|;
  }

  lemma MovesKeepsInv(s: Service, id: nat, st: Stream)
    requires Inv(s) && id in s.streams && StreamOk(st, s)
    requires HasStatusReceiver(st) == HasStatusReceiver(s.streams[id])
    requires s.streams[id].phase.StatusSubscribed? ==> s.permit
    ensures Inv(Moves(s, id, st))
  {
    var s' := Moves(s, id, st);
    MovesKeepsSampler(s, id, st);
    SameKeysSameSize(s.streams, s'.streams);
    forall k | k in s'.streams ensures StreamOk(s'.streams[k], s') {
      assert k != id ==> s'.streams[k] == s.streams[k];
    }
  }

  /** Subscribing makes a receiver appear, and the subscriber is about to notify. */
  lemma SubscribesStatusKeepsInv(s: Service, id: nat)
    requires Inv(s) && id in s.streams && s.streams[id].phase.PassedShutdownCheck?
    ensures Inv(Moves(s, id, s.streams[id].(phase := StatusSubscribed, statusSeen := s.feed.version)))
  {
    var st := s.streams[id].(phase := StatusSubscribed, statusSeen := s.feed.version);
    var s' := Moves(s, id, st);
    assert s'.streams.Keys == s.streams.Keys;
    assert |s'.streams| == |s'.streams.Keys| && |s.streams| == |s.streams.Keys|;
    assert s'.streams[id].phase.StatusSubscribed?;
    assert StreamOk(st, s') by {
      assert StreamOk(s.streams[id], s);
      forall topic | 1 <= topic <= |st.topics|
        ensures TopicOk(st, topic, s.bus[topic].version)
      {
        assert TopicOk(s.streams[id], topic, s.bus[topic].version);
      }
    }
  }

  lemma EndsKeepsInv(s: Service, id: nat)
    requires Inv(s) && id in s.streams && !s.streams[id].phase.StatusSubscribed?
    ensures Inv(Ends(s, id))
    ensures |Ends(s, id).streams| == |s.streams| - 1
  {
    var s' := Ends(s, id);
    assert s'.streams.Keys == s.streams.Keys - {id};
    assert |s'.streams| == |s'.streams.Keys| && |s.streams| == |s.streams.Keys|;
    if s'.sampler.Parking? && AnyReceiver(s') {
      var r :| r in s'.streams && HasStatusReceiver(s'.streams[r]);
      assert r in s.streams && HasStatusReceiver(s.streams[r]);
      if !s.permit {
        var n :| n in s.streams && s.streams[n].phase.StatusSubscribed?;
        assert n in s'.streams;
      }
    }
  }

  /** A change of phase that no topic or status history notices. */
  lemma PhaseChangeKeepsOk(st: Stream, s: Service, phase: Phase)
    requires BusOk(s.bus) && StreamOk(st, s)
    requires (st.phase, phase) in {
      (HoldsSlot, PassedShutdownCheck), (StatusSubscribed, SubscribingTopics), (SubscribingTopics, Idle),
      (CheckingShutdown, Selecting)}
    requires phase.Idle? ==> |st.topics| == PUSHED_TOPICS
    requires phase.Selecting? || phase.PassedShutdownCheck? ==> !s.shutdown
    ensures StreamOk(st.(phase := phase), s)
  {
    forall topic | 1 <= topic <= |st.topics|
      ensures TopicOk(st.(phase := phase), topic, s.bus[topic].version)
    {
      assert TopicOk(st, topic, s.bus[topic].version);
    }
  }

  lemma StatusChangedKeepsOk(st: Stream, s: Service)
    requires BusOk(s.bus) && StreamOk(st, s) && st.phase.Selecting?
    ensures StreamOk(StatusChanged(st, s.feed), s)
  {
    TopicsOkIsAboutTopics(st, StatusChanged(st, s.feed), s.bus);
  }

  lemma NotifiesSamplerKeepsInv(s: Service, id: nat)
    requires Inv(s) && id in s.streams && s.streams[id].phase.StatusSubscribed?
    ensures Inv(Moves(s.(permit := true), id, s.streams[id].(phase := SubscribingTopics)))
  {
    var s1 := s.(permit := true);
    assert Inv(s1) by {
      forall other | other in s1.streams ensures StreamOk(s1.streams[other], s1) {
        assert StreamOk(s.streams[other], s);
      }
    }
    PhaseChangeKeepsOk(s.streams[id], s1, SubscribingTopics);
    MovesKeepsInv(s1, id, s.streams[id].(phase := SubscribingTopics));
  }

  lemma OpeningChangesKeepInv(s: Service, id: nat, e: Event)
    requires Inv(s) && id in s.streams
    requires e == ChecksShutdownOnOpen(id) || e == SubscribesStatus(id) || e == OpeningEnds(id)
    ensures Inv(StreamStep(s, id, s.streams[id], e))
  {
    var st := s.streams[id];
    if e == ChecksShutdownOnOpen(id) && st.phase.HoldsSlot? {
      if s.shutdown {
        EndsKeepsInv(s, id);
      } else {
        PhaseChangeKeepsOk(st, s, PassedShutdownCheck);
        MovesKeepsInv(s, id, st.(phase := PassedShutdownCheck));
      }
    } else if e == SubscribesStatus(id) && st.phase.PassedShutdownCheck? {
      SubscribesStatusKeepsInv(s, id);
    } else if e == OpeningEnds(id) && st.phase.SubscribingTopics? && |st.topics| == PUSHED_TOPICS {
      PhaseChangeKeepsOk(st, s, Idle);
      MovesKeepsInv(s, id, st.(phase := Idle));
    }
  }

  lemma TopicSubscriptionKeepsInv(s: Service, id: nat)
    requires Inv(s) && id in s.streams && s.streams[id].phase.SubscribingTopics?
             && |s.streams[id].topics| < PUSHED_TOPICS
    ensures Inv(StreamStep(s, id, s.streams[id], SubscribesTopic(id)))
  {
    var st := s.streams[id];
    var seen := s.bus[|st.topics| + 1].version;
    SubscribesTopicKeepsOk(st, s);
    MovesKeepsInv(s, id, st.(topics := st.topics + [seen], subscribedAt := st.subscribedAt + [seen]));
  }

  lemma OpeningStepKeepsInv(s: Service, id: nat, e: Event)
    requires Inv(s) && id in s.streams
    requires e == ChecksShutdownOnOpen(id) || e == SubscribesStatus(id) || e == NotifiesSampler(id)
          || e == SubscribesTopic(id) || e == OpeningEnds(id)
    ensures Inv(StreamStep(s, id, s.streams[id], e))
  {
    var st := s.streams[id];
    if e == NotifiesSampler(id) {
      if st.phase.StatusSubscribed? { NotifiesSamplerKeepsInv(s, id); }
    } else if e == SubscribesTopic(id) {
      if st.phase.SubscribingTopics? && |st.topics| < PUSHED_TOPICS { TopicSubscriptionKeepsInv(s, id); }
    } else {
      OpeningChangesKeepInv(s, id, e);
    }
  }

  lemma PollStepKeepsInv(s: Service, id: nat, e: Event)
    requires Inv(s) && id in s.streams
    requires e == IsPolled(id) || e == ChecksShutdown(id) || e == ShutdownBranchReady(id) || e == ClientDrops(id)
    ensures Inv(StreamStep(s, id, s.streams[id], e))
  {
    var st := s.streams[id];
    if e == IsPolled(id) {
      if st.phase.Idle? {
        PolledKeepsOk(st, s);
        MovesKeepsInv(s, id, Polled(st, s.feed, s.shutdown));
      }
    } else if e == ChecksShutdown(id) && st.phase.CheckingShutdown? && !s.shutdown {
      PhaseChangeKeepsOk(st, s, Selecting);
      MovesKeepsInv(s, id, st.(phase := Selecting));
    } else if StreamStep(s, id, st, e) != s {
      EndsKeepsInv(s, id);
    }
  }

  lemma StatusStepKeepsInv(s: Service, id: nat, e: Event)
    requires Inv(s) && id in s.streams
    requires e == StatusBranchReady(id) || e == ReadsStatus(id) || e == Pings(id)
    ensures Inv(StreamStep(s, id, s.streams[id], e))
  {
    var st := s.streams[id];
    if e == StatusBranchReady(id) {
      if st.phase.Selecting? && st.statusSeen != s.feed.version {
        StatusChangedKeepsOk(st, s);
        MovesKeepsInv(s, id, StatusChanged(st, s.feed));
      }
    } else if e == ReadsStatus(id) {
      if st.phase.ReadingStatus? {
        StatusReadKeepsOk(st, s);
        MovesKeepsInv(s, id, StatusRead(st, s.feed, s.shutdown));
      }
    } else if st.phase.Selecting? {
      PingKeepsOk(st, s);
      MovesKeepsInv(s, id, Emit(st, PingFrame, s.shutdown));
    }
  }

  lemma TopicStepKeepsInv(s: Service, id: nat, e: Event)
    requires Inv(s) && id in s.streams && (e.TopicBranchReady? || e.ReadsTopic?) && e.id == id
    ensures Inv(StreamStep(s, id, s.streams[id], e))
  {
    var st := s.streams[id];
    if e.TopicBranchReady? {
      var t := e.pushed;
      if st.phase.Selecting? && 1 <= t <= |st.topics| && t < TOPIC_COUNT && st.topics[t - 1] != s.bus[t].version {
        TopicChangedKeepsOk(st, s, t);
        MovesKeepsInv(s, id, TopicChanged(st, t, s.bus[t]));
      }
    } else if st.phase.ReadingTopic? && 1 <= st.phase.topic <= |st.topics| && st.phase.topic < TOPIC_COUNT {
      TopicReadKeepsOk(st, s, st.phase.topic);
      MovesKeepsInv(s, id, TopicRead(st, st.phase.topic, s.bus[st.phase.topic], s.shutdown));
    }
  }

  lemma FrameStepKeepsInv(s: Service, id: nat, e: Event)
    requires Inv(s) && id in s.streams && IsStreamEvent(e) && e.id == id
    requires !(|| e.ChecksShutdownOnOpen? || e.SubscribesStatus? || e.NotifiesSampler? || e.SubscribesTopic?
               || e.OpeningEnds?)
    ensures Inv(StreamStep(s, id, s.streams[id], e))
  {
    if e.TopicBranchReady? || e.ReadsTopic? {
      TopicStepKeepsInv(s, id, e);
    } else if e.StatusBranchReady? || e.ReadsStatus? || e.Pings? {
      StatusStepKeepsInv(s, id, e);
    } else {
      PollStepKeepsInv(s, id, e);
    }
  }

  /** Changes around a stream: bumps only raise versions, a publish raises the feed's version, and
      shutdown finds every budget unspent. */
  lemma SurroundingsKeepOk(st: Stream, s: Service, s': Service)
    requires BusOk(s.bus) && BusOk(s'.bus) && StreamOk(st, s)
    requires forall t :: 0 <= t < TOPIC_COUNT ==> s.bus[t].version <= s'.bus[t].version
    requires s'.feed == s.feed || s'.feed.version > s.feed.version
    requires s.shutdown ==> s'.shutdown
    ensures StreamOk(st, s')
  {
    forall topic | 1 <= topic <= |st.topics|
      ensures TopicOk(st, topic, s'.bus[topic].version)
    {
      assert TopicOk(st, topic, s.bus[topic].version);
    }
  }

  lemma SurroundingsKeepStreams(s: Service, s': Service)
    requires Inv(s) && BusOk(s'.bus)
    requires forall t :: 0 <= t < TOPIC_COUNT ==> s.bus[t].version <= s'.bus[t].version
    requires s'.feed == s.feed || s'.feed.version > s.feed.version
    requires s.shutdown ==> s'.shutdown
    requires forall id :: id in s'.streams ==>
               if id in s.streams then s'.streams[id] == s.streams[id] else s'.streams[id] == FRESH_STREAM
    ensures forall id :: id in s'.streams ==> StreamOk(s'.streams[id], s')
  {
    forall id | id in s'.streams
      ensures StreamOk(s'.streams[id], s')
    {
      if id in s.streams {
        SurroundingsKeepOk(s.streams[id], s, s');
      }
    }
  }

  lemma BumpKeepsInv(s: Service, topic: Topic)
    requires Inv(s)
    ensures Inv(Step(s, Bumps(topic)))
  {
    BumpKeepsBusOk(s.bus, topic);
    forall t | 0 <= t < TOPIC_COUNT
      ensures s.bus[t].version <= BumpedBus(s.bus, topic)[t].version
    {
      if t == Index(topic) {
        assert BumpedBus(s.bus, topic)[t] == Bumped(s.bus[t]);
      }
    }
    SurroundingsKeepStreams(s, Step(s, Bumps(topic)));
  }

  lemma TakesSlotKeepsInv(s: Service, id: nat)
    requires Inv(s) && s.freeSlots > 0 && id !in s.streams
    ensures Inv(Step(s, TakesSlot(id)))
  {
    var s' := Step(s, TakesSlot(id));
    assert s'.streams.Keys == s.streams.Keys + {id};
    assert |s'.streams| == |s'.streams.Keys| && |s.streams| == |s.streams.Keys|;
    if s'.sampler.Parking? && AnyReceiver(s') {
      var r :| r in s'.streams && HasStatusReceiver(s'.streams[r]);
      assert r in s.streams && HasStatusReceiver(s.streams[r]);
      if !s.permit {
        var n :| n in s.streams && s.streams[n].phase.StatusSubscribed?;
        assert n in s'.streams && s'.streams[n].phase.StatusSubscribed?;
      }
    }
    SurroundingsKeepStreams(s, s');
  }

  lemma SamplerStepKeepsInv(s: Service, e: Event)
    requires Inv(s)
    requires e.SamplerChecks? || e.SamplerWakes? || e.SamplerPublishes? || e.SamplerSleepEnds? || e.ShutdownFires?
    ensures Inv(Step(s, e))
  {
    var s' := Step(s, e);
    assert s'.streams == s.streams && s'.bus == s.bus && s'.freeSlots == s.freeSlots;
    SurroundingsKeepStreams(s, s');
  }

  lemma ServiceStepKeepsInv(s: Service, e: Event)
    requires Inv(s) && !IsStreamEvent(e)
    ensures Inv(Step(s, e))
  {
    if e.Bumps? {
      BumpKeepsInv(s, e.topic);
    } else if e.TakesSlot? {
      if s.freeSlots > 0 && e.id !in s.streams { TakesSlotKeepsInv(s, e.id); }
    } else {
      SamplerStepKeepsInv(s, e);
    }
  }

  lemma StepKeepsInv(s: Service, e: Event)
    requires Inv(s)
    ensures Inv(Step(s, e))
  {
    if IsStreamEvent(e) {
      if e.id in s.streams {
        if e.ChecksShutdownOnOpen? || e.SubscribesStatus? || e.NotifiesSampler? || e.SubscribesTopic?
          || e.OpeningEnds? {
          OpeningStepKeepsInv(s, e.id, e);
        } else {
          FrameStepKeepsInv(s, e.id, e);
        }
      }
    } else {
      ServiceStepKeepsInv(s, e);
    }
  }

  lemma {:induction false} EveryRunKeepsInv(events: seq<Event>)
    ensures Inv(Run(events))
    decreases |events|
  {
    if events != [] {
      EveryRunKeepsInv(events[..|events| - 1]);
      StepKeepsInv(Run(events[..|events| - 1]), events[|events| - 1]);
    }
  }

  // ---------- what every run promises ----------

  /** No change is lost: an open stream with nothing pending on a topic has last sent that topic's
      current counter, or nothing at all because it has not been bumped since the stream opened. */
  lemma NoChangeIsLost(events: seq<Event>, id: nat, topic: nat)
    requires var s := Run(events);
             && id in s.streams && IsOpen(s.streams[id]) && 1 <= topic <= PUSHED_TOPICS
             && s.streams[id].phase != ReadingTopic(topic)
             && |s.streams[id].topics| == PUSHED_TOPICS
             && s.streams[id].topics[topic - 1] == s.bus[topic].version
    ensures var s := Run(events);
            var st, marks := s.streams[id], Marks(s.streams[id].frames, topic);
            && |st.subscribedAt| == PUSHED_TOPICS
            && if marks == [] then s.bus[topic].version == st.subscribedAt[topic - 1]
               else marks[|marks| - 1] == s.bus[topic].version
                    && TopicFrame(topic, s.bus[topic].value, s.bus[topic].version) in st.frames
  {
    EveryRunKeepsInv(events);
    var s := Run(events);
    var st := s.streams[id];
    assert StreamOk(st, s) && TopicOk(st, topic, s.bus[topic].version);
    LastMarkIsAFrame(st.frames, topic);
  }

  lemma {:induction false} LastMarkIsAFrame(frames: seq<Frame>, topic: nat)
    requires FrameValuesOk(frames)
    ensures var marks := Marks(frames, topic);
            marks != [] ==> TopicFrame(topic, marks[|marks| - 1] % U64_VALUES, marks[|marks| - 1]) in frames
    decreases |frames|
  {
    if frames != [] {
      var init := frames[..|frames| - 1];
      assert forall f :: f in init ==> f in frames;
      assert frames[|frames| - 1] in frames;
      LastMarkIsAFrame(init, topic);
    }
  }

  /** A burst is one frame: every frame of a topic consumes at least one bump made since that
      topic's previous frame, so there are never more frames than bumps, wrapped counters or not. */
  lemma FramesNeverOutnumberBumps(events: seq<Event>, id: nat, topic: nat)
    requires var s := Run(events);
             id in s.streams && 1 <= topic <= |s.streams[id].topics| && topic <= PUSHED_TOPICS
    ensures var s := Run(events);
            var st := s.streams[id];
            && |st.topics| == |st.subscribedAt|
            && Climbs(st.subscribedAt[topic - 1], Marks(st.frames, topic))
            && |Marks(st.frames, topic)| <= s.bus[topic].version - st.subscribedAt[topic - 1]
  {
    EveryRunKeepsInv(events);
    var s := Run(events);
    var st := s.streams[id];
    assert StreamOk(st, s) && TopicOk(st, topic, s.bus[topic].version);
    ClimbingMarksAreFew(st.subscribedAt[topic - 1], Marks(st.frames, topic));
  }

  /** The same for the status: nothing pending means the page shows the sampled status. */
  lemma NoStatusIsLost(events: seq<Event>, id: nat)
    requires var s := Run(events);
             && id in s.streams && !s.streams[id].sendStatusFirst && !s.streams[id].phase.ReadingStatus?
             && s.streams[id].statusSeen == s.feed.version
    ensures LastStatus(Run(events).streams[id].frames) == Run(events).feed.value
  {
    EveryRunKeepsInv(events);
    assert StreamOk(Run(events).streams[id], Run(events));
  }

  /** The sampler never sleeps through a subscriber. */
  lemma SamplerNeverSleepsThroughASubscriber(events: seq<Event>)
    requires Run(events).sampler.Parking? && AnyReceiver(Run(events))
    ensures Run(events).permit || SomeoneAboutToNotify(Run(events))
  {
    EveryRunKeepsInv(events);
  }

  /** At most four requests hold a slot, and every slot is either held or free. */
  lemma AtMostFourStreams(events: seq<Event>)
    ensures |Run(events).streams| <= MAX_EVENT_SUBSCRIBERS
    ensures Run(events).freeSlots == MAX_EVENT_SUBSCRIBERS - |Run(events).streams|
  {
    EveryRunKeepsInv(events);
  }

  lemma RemovingAKey(m: map<nat, Stream>, k: nat)
    requires k in m
    ensures |m - {k}| == |m| - 1
  {
    assert (m - {k}).Keys == m.Keys - {k};
    assert |m - {k}| == |(m - {k}).Keys| && |m| == |m.Keys|;
  }

  /** The only step that takes a request away is its end. */
  lemma LeavingIsEnding(s: Service, e: Event)
    requires |s.bus| == TOPIC_COUNT
    requires IsStreamEvent(e) && e.id in s.streams && e.id !in Step(s, e).streams
    ensures Step(s, e) == Ends(s, e.id)
  {
  }

  /** A stream that leaves frees its own slot and disturbs no other stream. */
  lemma LeavingFreesOneSlot(events: seq<Event>, e: Event)
    requires IsStreamEvent(e) && e.id in Run(events).streams && e.id !in Step(Run(events), e).streams
    ensures var s, s' := Run(events), Step(Run(events), e);
            && s'.freeSlots == s.freeSlots + 1
            && s'.streams == s.streams - {e.id}
            && |s'.streams| == |s.streams| - 1
            && s'.permit == s.permit && s'.sampler == s.sampler
  {
    LeavingIsEnding(Run(events), e);
    RemovingAKey(Run(events).streams, e.id);
  }

  /** Once shutdown has fired, a stream sends at most one more frame. */
  lemma AtMostOneFrameAfterShutdown(events: seq<Event>, id: nat)
    requires id in Run(events).streams
    ensures Run(events).streams[id].framesAfterShutdown <= 1
  {
    EveryRunKeepsInv(events);
    assert StreamOk(Run(events).streams[id], Run(events));
  }

  /** How many steps of its own a request can still take after shutdown. */
  function Rank(st: Stream): nat {
    match st.phase
    case HoldsSlot => 1
    case PassedShutdownCheck => 2 * PUSHED_TOPICS
    case StatusSubscribed => 2 * PUSHED_TOPICS - 1
    case SubscribingTopics => if |st.topics| <= PUSHED_TOPICS then 5 + PUSHED_TOPICS - |st.topics| else 5
    case Idle => if st.sendStatusFirst then 3 else 2
    case CheckingShutdown => 1
    case Selecting => 4
    case ReadingStatus => 3
    case ReadingTopic(_) => 3
  }

  lemma OpeningStepLowersRank(s: Service, id: nat, e: Event)
    requires |s.bus| == TOPIC_COUNT && s.shutdown && id in s.streams && TopicsOk(s.streams[id], s.bus)
    requires e == ChecksShutdownOnOpen(id) || e == SubscribesStatus(id) || e == NotifiesSampler(id)
          || e == SubscribesTopic(id) || e == OpeningEnds(id)
    requires s.streams[id].sendStatusFirst || IsOpen(s.streams[id])
    ensures var s' := StreamStep(s, id, s.streams[id], e);
            s' != s && id in s'.streams ==> Rank(s'.streams[id]) < Rank(s.streams[id])
  {
  }

  lemma FrameStepLowersRank(s: Service, id: nat, e: Event)
    requires |s.bus| == TOPIC_COUNT && s.shutdown && id in s.streams && StatusOk(s.streams[id], s.feed)
    requires IsStreamEvent(e) && e.id == id
    requires !(|| e.ChecksShutdownOnOpen? || e.SubscribesStatus? || e.NotifiesSampler? || e.SubscribesTopic?
               || e.OpeningEnds?)
    ensures var s' := StreamStep(s, id, s.streams[id], e);
            s' != s && id in s'.streams ==> Rank(s'.streams[id]) < Rank(s.streams[id])
  {
  }

  /** After shutdown every step a request takes brings it nearer its end... */
  lemma ShutdownStepsAreFinite(events: seq<Event>, e: Event)
    requires Run(events).shutdown && IsStreamEvent(e) && e.id in Run(events).streams
    requires Step(Run(events), e) != Run(events)
    ensures var s, s' := Run(events), Step(Run(events), e);
            e.id in s'.streams ==> Rank(s'.streams[e.id]) < Rank(s.streams[e.id])
  {
    EveryRunKeepsInv(events);
    var s := Run(events);
    assert StreamOk(s.streams[e.id], s);
    if e.ChecksShutdownOnOpen? || e.SubscribesStatus? || e.NotifiesSampler? || e.SubscribesTopic? || e.OpeningEnds? {
      OpeningStepLowersRank(s, e.id, e);
    } else {
      FrameStepLowersRank(s, e.id, e);
    }
  }

  /** The step a request takes next when nothing but shutdown happens around it. */
  function OwnNextStep(id: nat, st: Stream): Event {
    match st.phase
    case HoldsSlot => ChecksShutdownOnOpen(id)
    case PassedShutdownCheck => SubscribesStatus(id)
    case StatusSubscribed => NotifiesSampler(id)
    case SubscribingTopics => if |st.topics| < PUSHED_TOPICS then SubscribesTopic(id) else OpeningEnds(id)
    case Idle => IsPolled(id)
    case CheckingShutdown => ChecksShutdown(id)
    case Selecting => ShutdownBranchReady(id)
    case ReadingStatus => ReadsStatus(id)
    case ReadingTopic(_) => ReadsTopic(id)
  }

  lemma OwnNextStepLowersRank(s: Service, id: nat)
    requires |s.bus| == TOPIC_COUNT && s.shutdown && id in s.streams && TopicsOk(s.streams[id], s.bus)
    requires s.streams[id].sendStatusFirst && IsOpen(s.streams[id]) ==> s.streams[id].phase.Idle?
    ensures var s' := StreamStep(s, id, s.streams[id], OwnNextStep(id, s.streams[id]));
            id in s'.streams ==> Rank(s'.streams[id]) < Rank(s.streams[id])
  {
  }

  /** ...and such a step is always open to it, so no request outlives shutdown by more than its
      rank. */
  lemma ShutdownNeverLeavesAStreamStuck(events: seq<Event>, id: nat)
    requires Run(events).shutdown && id in Run(events).streams
    ensures var s := Run(events);
            var e := OwnNextStep(id, s.streams[id]);
            && IsStreamEvent(e) && e.id == id && !e.ClientDrops?
            && (id in Step(s, e).streams ==> Rank(Step(s, e).streams[id]) < Rank(s.streams[id]))
  {
    EveryRunKeepsInv(events);
    var s := Run(events);
    assert StreamOk(s.streams[id], s);
    OwnNextStepLowersRank(s, id);
  }

  /** The steps of the branch of the select that completes, with the channels as they stand when its
      wait ends and when it is read. */
  function BranchRun(s: Service, id: nat, branch: Branch): Service
    requires |s.bus| == TOPIC_COUNT
    requires branch.TopicBranch? ==> 1 <= branch.topic <= PUSHED_TOPICS
  {
    match branch
    case ShutdownBranch => Step(s.(shutdown := true), ShutdownBranchReady(id))
    case StatusBranch(changed, read) =>
      Step(Step(s.(feed := changed), StatusBranchReady(id)).(feed := read), ReadsStatus(id))
    case TopicBranch(t, changedTo, readAs) =>
      var woken := Step(s.(bus := s.bus[t := changedTo]), TopicBranchReady(id, t));
      Step(woken.(bus := s.bus[t := readAs]), ReadsTopic(id))
    case PingBranch => Step(s, Pings(id))
  }

  /** The steps of one call: the poll, the check of shutdown, and the completing branch. */
  function NextFrameRun(s: Service, id: nat, branch: Branch): Service
    requires |s.bus| == TOPIC_COUNT && id in s.streams
    requires branch.TopicBranch? ==> 1 <= branch.topic <= PUSHED_TOPICS
  {
    var polled := Step(s, IsPolled(id));
    var checked := Step(polled, ChecksShutdown(id));
    if s.streams[id].sendStatusFirst && s.feed.value != [] then polled
    else if s.shutdown then checked
    else BranchRun(checked, id, branch)
  }

  /** The wait of this branch can end: its channel holds a version the stream has not seen. */
  predicate CanComplete(s: Service, id: nat, branch: Branch)
    requires id in s.streams
  {
    var st := s.streams[id];
    match branch
    case StatusBranch(changed, _) => (if st.sendStatusFirst then s.feed.version else st.statusSeen) != changed.version
    case TopicBranch(t, changedTo, _) => 1 <= t <= |st.topics| && st.topics[t - 1] != changedTo.version
    case _ => true
  }

  lemma SelectedStream(s: Service, id: nat)
    requires |s.bus| == TOPIC_COUNT && id in s.streams && s.streams[id].phase.Idle?
    requires s.streams[id].sendStatusFirst ==> s.feed.value == []
    ensures var polled := Polled(s.streams[id], s.feed, s.shutdown);
            var checked := Step(Step(s, IsPolled(id)), ChecksShutdown(id));
            && Step(s, IsPolled(id)) == Moves(s, id, polled) && polled.phase.CheckingShutdown?
            && if s.shutdown then checked == Ends(Moves(s, id, polled), id)
               else checked == Moves(s, id, polled.(phase := Selecting))
  {
    assert s.streams[id := Polled(s.streams[id], s.feed, s.shutdown)][id
                        := Polled(s.streams[id], s.feed, s.shutdown).(phase := Selecting)]
        == s.streams[id := Polled(s.streams[id], s.feed, s.shutdown).(phase := Selecting)];
  }

  lemma StatusBranchRun(s: Service, id: nat, changed: Watch<string>, read: Watch<string>)
    requires |s.bus| == TOPIC_COUNT && id in s.streams && s.streams[id].phase.Selecting? && !s.shutdown
    requires s.streams[id].statusSeen != changed.version
    ensures var s' := Step(Step(s.(feed := changed), StatusBranchReady(id)).(feed := read), ReadsStatus(id));
            id in s'.streams && s'.streams[id] == StatusRead(StatusChanged(s.streams[id], changed), read, false)
  {
  }

  lemma TopicBranchRun(s: Service, id: nat, t: nat, changedTo: Watch<nat>, readAs: Watch<nat>)
    requires |s.bus| == TOPIC_COUNT && id in s.streams && s.streams[id].phase.Selecting? && !s.shutdown
    requires |s.streams[id].topics| == PUSHED_TOPICS && 1 <= t <= PUSHED_TOPICS
    requires s.streams[id].topics[t - 1] != changedTo.version
    ensures var woken := Step(s.(bus := s.bus[t := changedTo]), TopicBranchReady(id, t));
            var s' := Step(woken.(bus := s.bus[t := readAs]), ReadsTopic(id));
            id in s'.streams && s'.streams[id] == TopicRead(TopicChanged(s.streams[id], t, changedTo), t, readAs, false)
  {
    var woken := Step(s.(bus := s.bus[t := changedTo]), TopicBranchReady(id, t));
    assert woken.streams[id] == TopicChanged(s.streams[id], t, changedTo);
  }

  lemma BranchRunIsTheBranch(s: Service, id: nat, branch: Branch)
    requires |s.bus| == TOPIC_COUNT && id in s.streams && s.streams[id].phase.Selecting? && !s.shutdown
    requires |s.streams[id].topics| == PUSHED_TOPICS && !s.streams[id].sendStatusFirst && CanComplete(s, id, branch)
    ensures var s' := BranchRun(s, id, branch);
            match branch
            case ShutdownBranch => s' == Ends(s.(shutdown := true), id)
            case StatusBranch(changed, read) =>
              id in s'.streams && s'.streams[id] == StatusRead(StatusChanged(s.streams[id], changed), read, false)
            case TopicBranch(t, changedTo, readAs) =>
              && id in s'.streams
              && s'.streams[id] == TopicRead(TopicChanged(s.streams[id], t, changedTo), t, readAs, false)
            case PingBranch => id in s'.streams && s'.streams[id] == Emit(s.streams[id], PingFrame, false)
  {
    match branch
    case ShutdownBranch =>
    case StatusBranch(changed, read) => StatusBranchRun(s, id, changed, read);
    case TopicBranch(t, changedTo, readAs) => TopicBranchRun(s, id, t, changedTo, readAs);
    case PingBranch =>
  }

  lemma FirstStatusIsOneStep(s: Service, id: nat, branch: Branch)
    requires |s.bus| == TOPIC_COUNT && id in s.streams && s.streams[id].phase.Idle?
    requires |s.streams[id].topics| == PUSHED_TOPICS && CanComplete(s, id, branch)
    requires s.streams[id].sendStatusFirst && s.feed.value != []
    ensures id in NextFrameRun(s, id, branch).streams
    ensures AfterNextFrame(s.streams[id], s.feed, s.shutdown, branch) == (NextFrameRun(s, id, branch).streams[id], true)
  {
  }

  /** One call of `next_frame`, whichever branch completes and whatever the channels do meanwhile, is
      the run of its steps; when it returns no frame, the run has freed the slot. */
  lemma NextFrameIsARunOfSteps(s: Service, id: nat, branch: Branch)
    requires |s.bus| == TOPIC_COUNT && id in s.streams && s.streams[id].phase.Idle?
    requires |s.streams[id].topics| == PUSHED_TOPICS && CanComplete(s, id, branch)
    ensures var (after, sent) := AfterNextFrame(s.streams[id], s.feed, s.shutdown, branch);
            var s' := NextFrameRun(s, id, branch);
            if sent then id in s'.streams && s'.streams[id] == after
            else id !in s'.streams && s'.freeSlots == s.freeSlots + 1
  {
    if s.streams[id].sendStatusFirst && s.feed.value != [] {
      FirstStatusIsOneStep(s, id, branch);
    } else {
      SelectedStream(s, id);
      if !s.shutdown {
        var polled := Polled(s.streams[id], s.feed, false);
        BranchRunIsTheBranch(Moves(s, id, polled.(phase := Selecting)), id, branch);
      }
    }
  }
}
