/** The push streams told by the events alone: what the status feed and the counters hold, who gets a
    slot, and what a stream sends, without a look at the channels (`events.rs`, `change_bus.rs`). */
module PushStreamHistory {

  import opened ChangeBus
  import opened PushStream
  import opened PushStreamSafety
  import opened Wrappers
  import Strings

  // ---------- the status feed ----------

  /** The texts the sampler stored: those that came while it was publishing. */
  function Samples(events: seq<Event>): seq<string> {
    if events == [] then []
    else
      var init, last := events[..|events| - 1], events[|events| - 1];
      Samples(init)
      + if last.SamplerPublishes? && last.json.Some? && Run(init).sampler.Publishing? then [last.json.value] else []
  }

  function Newest(samples: seq<string>): string {
    if samples == [] then "" else samples[|samples| - 1]
  }

  /** How many samples differ from the one before them, the first from the empty text. */
  function Changes(samples: seq<string>): nat {
    if samples == [] then 0
    else
      var init := samples[..|samples| - 1];
      Changes(init) + if samples[|samples| - 1] != Newest(init) then 1 else 0
  }

  lemma StepLeavesFeed(s: Service, e: Event)
    requires |s.bus| == TOPIC_COUNT && !e.SamplerPublishes?
    ensures Step(s, e).feed == s.feed
  {
  }

  lemma PublishingStep(s: Service, json: Option<string>)
    requires |s.bus| == TOPIC_COUNT
    ensures Step(s, SamplerPublishes(json)).feed
         == if s.sampler.Publishing? && json.Some? && json.value != s.feed.value
            then Watch(json.value, s.feed.version + 1) else s.feed
  {
  }

  lemma OneMoreSample(samples: seq<string>, text: string)
    ensures Newest(samples + [text]) == text
    ensures Changes(samples + [text]) == Changes(samples) + if text != Newest(samples) then 1 else 0
  {
    Strings.Snoc(samples, text);
  }

  lemma SamplesOfOneMore(events: seq<Event>)
    requires events != []
    ensures var init, last := events[..|events| - 1], events[|events| - 1];
            && Run(events) == Step(Run(init), last)
            && Samples(events) == if last.SamplerPublishes? && last.json.Some? && Run(init).sampler.Publishing?
                                  then Samples(init) + [last.json.value] else Samples(init)
  {
  }

  /** Over every run the feed holds the newest sample, and its version counts the samples that differed
      from the one before. */
  lemma {:induction false} FeedIsTheNewestSample(events: seq<Event>)
    ensures Run(events).feed == Watch(Newest(Samples(events)), Changes(Samples(events)))
    decreases |events|
  {
    if events != [] {
      var init, last := events[..|events| - 1], events[|events| - 1];
      FeedIsTheNewestSample(init);
      SamplesOfOneMore(events);
      match last
      case SamplerPublishes(json) =>
        PublishingStep(Run(init), json);
        if json.Some? {
          OneMoreSample(Samples(init), json.value);
        }
      case _ => StepLeavesFeed(Run(init), last);
    }
  }

  /** A stream with nothing pending has last sent the newest sampled status. */
  lemma NewestStatusIsShown(events: seq<Event>, id: nat)
    requires var s := Run(events);
             && id in s.streams && !s.streams[id].sendStatusFirst && !s.streams[id].phase.ReadingStatus?
             && s.streams[id].statusSeen == Changes(Samples(events))
    ensures LastStatus(Run(events).streams[id].frames) == Newest(Samples(events))
  {
    FeedIsTheNewestSample(events);
    NoStatusIsLost(events, id);
  }

  /** The sampler's next step, with the text it samples. */
  function SamplerNext(s: Service, json: string): Event {
    match s.sampler
    case Checking => SamplerChecks
    case Parking => SamplerWakes
    case Publishing => SamplerPublishes(Some(json))
    case Sleeping => SamplerSleepEnds
  }

  function SamplerRun(s: Service, json: string, n: nat): (s': Service)
    requires |s.bus| == TOPIC_COUNT
    ensures |s'.bus| == TOPIC_COUNT
    decreases n
  {
    if n == 0 then s else SamplerRun(Step(s, SamplerNext(s, json)), json, n - 1)
  }

  lemma SamplerStep(s: Service, json: string)
    requires |s.bus| == TOPIC_COUNT && AnyReceiver(s) && (s.sampler.Parking? ==> s.permit)
    ensures var s' := Step(s, SamplerNext(s, json));
            && AnyReceiver(s')
            && match s.sampler
               case Checking => s'.sampler.Publishing?
               case Publishing => s'.feed.value == json
               case _ => s'.sampler.Checking?
  {
  }

  lemma NoStepLeft(s: Service, json: string)
    requires |s.bus| == TOPIC_COUNT
    ensures SamplerRun(s, json, 0) == s
  {
  }

  lemma OneStepLess(s: Service, json: string, n: nat)
    requires |s.bus| == TOPIC_COUNT && n > 0
    ensures SamplerRun(s, json, n) == SamplerRun(Step(s, SamplerNext(s, json)), json, n - 1)
  {
  }

  /** How many steps the sampler is from storing a sample. */
  function StepsToSample(s: Service): (n: nat)
    ensures 0 < n <= 3
  {
    match s.sampler
    case Publishing => 1
    case Checking => 2
    case _ => 3
  }

  lemma {:induction false} SamplerSamples(s: Service, json: string)
    requires |s.bus| == TOPIC_COUNT && AnyReceiver(s) && (s.sampler.Parking? ==> s.permit)
    ensures SamplerRun(s, json, StepsToSample(s)).feed.value == json
    decreases StepsToSample(s)
  {
    var s' := Step(s, SamplerNext(s, json));
    SamplerStep(s, json);
    OneStepLess(s, json, StepsToSample(s));
    NoStepLeft(s', json);
    if !s.sampler.Publishing? {
      SamplerSamples(s', json);
    }
  }

  /** As long as somebody subscribes, and nobody is about to tell the sampler so, it is at most three of
      its own steps from storing a new sample. */
  lemma SamplerSamplesForASubscriber(events: seq<Event>, json: string)
    requires AnyReceiver(Run(events)) && !SomeoneAboutToNotify(Run(events))
    ensures exists n :: 0 < n <= 3 && SamplerRun(Run(events), json, n).feed.value == json
  {
    EveryRunKeepsInv(events);
    SamplerSamples(Run(events), json);
  }

  /** How often the sampler has sampled, with or without a text. */
  function Sampled(events: seq<Event>): nat {
    if events == [] then 0
    else
      var init := events[..|events| - 1];
      Sampled(init) + if events[|events| - 1].SamplerPublishes? && Run(init).sampler.Publishing? then 1 else 0
  }

  function SleepsOver(events: seq<Event>): nat {
    if events == [] then 0
    else SleepsOver(events[..|events| - 1]) + if events[|events| - 1].SamplerSleepEnds? then 1 else 0
  }

  lemma SamplerPhaseStep(s: Service, e: Event)
    requires |s.bus| == TOPIC_COUNT
    ensures var s' := Step(s, e);
            && (e.SamplerPublishes? && s.sampler.Publishing? ==> s'.sampler.Sleeping?)
            && (!e.SamplerSleepEnds? && s.sampler.Sleeping? ==> s'.sampler.Sleeping?)
  {
  }

  /** Between two samples the sampler sleeps. */
  lemma {:induction false} SamplerSleepsBetweenSamples(events: seq<Event>)
    ensures Sampled(events) <= SleepsOver(events) + if Run(events).sampler.Sleeping? then 1 else 0
    decreases |events|
  {
    if events != [] {
      var init := events[..|events| - 1];
      SamplerSleepsBetweenSamples(init);
      SamplerPhaseStep(Run(init), events[|events| - 1]);
    }
  }

  // ---------- the counters ----------

  function Bumps(events: seq<Event>, topic: Topic): nat {
    if events == [] then 0
    else Bumps(events[..|events| - 1], topic) + if events[|events| - 1] == Event.Bumps(topic) then 1 else 0
  }

  lemma StepLeavesBus(s: Service, e: Event)
    requires |s.bus| == TOPIC_COUNT && !e.Bumps?
    ensures Step(s, e).bus == s.bus
  {
  }

  lemma BusAfterOneMore(s: Service, e: Event, topic: Topic)
    requires BusOk(s.bus)
    ensures BusOk(Step(s, e).bus)
    ensures Step(s, e).bus[Index(topic)].version
         == s.bus[Index(topic)].version + if e == Event.Bumps(topic) then 1 else 0
  {
    match e
    case Bumps(bumped) => BumpKeepsBusOk(s.bus, bumped);
    case _ => StepLeavesBus(s, e);
  }

  lemma {:induction false} VersionsCountBumps(events: seq<Event>, topic: Topic)
    ensures BusOk(Run(events).bus) && Run(events).bus[Index(topic)].version == Bumps(events, topic)
    decreases |events|
  {
    if events != [] {
      var init, last := events[..|events| - 1], events[|events| - 1];
      VersionsCountBumps(init, topic);
      BusAfterOneMore(Run(init), last, topic);
    }
  }

  /** Each topic's counter is the number of its bumps, up to the wrap-around. */
  lemma CountersCountBumps(events: seq<Event>, topic: Topic)
    ensures Run(events).bus[Index(topic)] == Watch(Bumps(events, topic) % U64_VALUES, Bumps(events, topic))
  {
    VersionsCountBumps(events, topic);
    assert 0 <= Index(topic) < TOPIC_COUNT;
  }

  lemma StepLeavesShutdown(s: Service, e: Event)
    requires |s.bus| == TOPIC_COUNT && !e.ShutdownFires?
    ensures Step(s, e).shutdown == s.shutdown
  {
  }

  lemma {:induction false} ShutdownHasFiredIff(events: seq<Event>)
    ensures Run(events).shutdown <==> ShutdownFires in events
    decreases |events|
  {
    if events != [] {
      var init, last := events[..|events| - 1], events[|events| - 1];
      ShutdownHasFiredIff(init);
      Strings.Unsnoc(events);
      if !last.ShutdownFires? {
        StepLeavesShutdown(Run(init), last);
      }
    }
  }

  /** A stream with nothing pending on a topic has last sent the number of the topic's bumps, or saw none
      since it subscribed. */
  lemma NewestCounterIsShown(events: seq<Event>, id: nat, topic: Topic)
    requires var s := Run(events);
             && id in s.streams && IsOpen(s.streams[id]) && topic != Status
             && s.streams[id].phase != ReadingTopic(Index(topic))
             && |s.streams[id].topics| == PUSHED_TOPICS
             && s.streams[id].topics[Index(topic) - 1] == Bumps(events, topic)
    ensures var st, marks := Run(events).streams[id], Marks(Run(events).streams[id].frames, Index(topic));
            && |st.subscribedAt| == PUSHED_TOPICS
            && if marks == [] then st.subscribedAt[Index(topic) - 1] == Bumps(events, topic)
               else TopicFrame(Index(topic), Bumps(events, topic) % U64_VALUES, Bumps(events, topic)) in st.frames
                    && marks[|marks| - 1] == Bumps(events, topic)
  {
    CountersCountBumps(events, topic);
    TopicIndex(topic);
    NoChangeIsLost(events, id, Index(topic));
  }

  // ---------- slots ----------

  /** A request that comes gets a slot exactly if fewer than four are taken; the streams there are stay
      as they are. */
  lemma RequestIsTakenIff(events: seq<Event>, id: nat)
    requires id !in Run(events).streams
    ensures var s, s' := Run(events), Step(Run(events), TakesSlot(id));
            && (id in s'.streams <==> |s.streams| < MAX_EVENT_SUBSCRIBERS)
            && (forall other :: other in s.streams ==> other in s'.streams && s'.streams[other] == s.streams[other])
  {
    AtMostFourStreams(events);
  }

  /** The client of a stream that waits can leave at any time. */
  lemma ClientCanLeave(events: seq<Event>, id: nat)
    requires id in Run(events).streams
    requires Run(events).streams[id].phase.Idle? || Run(events).streams[id].phase.Selecting?
    ensures var s, s' := Run(events), Step(Run(events), ClientDrops(id));
            id !in s'.streams && s'.freeSlots == s.freeSlots + 1
  {
  }

  // ---------- a request that opens ----------

  /** The next `n` steps of one request, with nothing else happening. */
  function OwnRun(s: Service, id: nat, n: nat): (s': Service)
    requires |s.bus| == TOPIC_COUNT
    ensures |s'.bus| == TOPIC_COUNT
    decreases n
  {
    if n == 0 || id !in s.streams then s else OwnRun(Step(s, OwnNextStep(id, s.streams[id])), id, n - 1)
  }

  lemma NoOwnStepLeft(s: Service, id: nat)
    requires |s.bus| == TOPIC_COUNT
    ensures OwnRun(s, id, 0) == s
  {
  }

  lemma OneOwnStepLess(s: Service, id: nat, n: nat)
    requires |s.bus| == TOPIC_COUNT && n > 0 && id in s.streams
    ensures OwnRun(s, id, n) == OwnRun(Step(s, OwnNextStep(id, s.streams[id])), id, n - 1)
  {
  }

  /** Nothing has been sent, and what has been subscribed to so far is as it stands. */
  predicate HasSubscribed(s: Service, st: Stream)
    requires |s.bus| == TOPIC_COUNT
  {
    && st.sendStatusFirst && st.frames == [] && |st.topics| <= PUSHED_TOPICS
    && forall i :: 0 <= i < |st.topics| ==> st.topics[i] == s.bus[i + 1].version
  }

  predicate IsOpening(st: Stream) {
    !IsOpen(st) && (st.phase.SubscribingTopics? || st.topics == [])
  }

  /** How many of its own steps a request is from waiting for its first frame. */
  function StepsToOpen(st: Stream): nat
    requires |st.topics| <= PUSHED_TOPICS
  {
    match st.phase
    case HoldsSlot => PUSHED_TOPICS + 4
    case PassedShutdownCheck => PUSHED_TOPICS + 3
    case StatusSubscribed => PUSHED_TOPICS + 2
    case SubscribingTopics => PUSHED_TOPICS - |st.topics| + 1
    case _ => 0
  }

  lemma OpeningStep(s: Service, id: nat)
    requires |s.bus| == TOPIC_COUNT && !s.shutdown && id in s.streams
    requires HasSubscribed(s, s.streams[id]) && IsOpening(s.streams[id])
    ensures var st, s' := s.streams[id], Step(s, OwnNextStep(id, s.streams[id]));
            && id in s'.streams && s'.bus == s.bus && !s'.shutdown
            && HasSubscribed(s', s'.streams[id])
            && StepsToOpen(s'.streams[id]) == StepsToOpen(st) - 1
            && (if StepsToOpen(st) == 1 then s'.streams[id].phase.Idle? && |s'.streams[id].topics| == PUSHED_TOPICS
                else IsOpening(s'.streams[id]))
  {
  }

  lemma {:induction false} OpeningGoesThrough(s: Service, id: nat)
    requires |s.bus| == TOPIC_COUNT && !s.shutdown && id in s.streams
    requires HasSubscribed(s, s.streams[id]) && IsOpening(s.streams[id])
    ensures var s' := OwnRun(s, id, StepsToOpen(s.streams[id]));
            && id in s'.streams && s'.streams[id].phase.Idle? && |s'.streams[id].topics| == PUSHED_TOPICS
            && s'.bus == s.bus && HasSubscribed(s', s'.streams[id])
    decreases StepsToOpen(s.streams[id])
  {
    var s' := Step(s, OwnNextStep(id, s.streams[id]));
    OpeningStep(s, id);
    OneOwnStepLess(s, id, StepsToOpen(s.streams[id]));
    NoOwnStepLeft(s', id);
    if StepsToOpen(s.streams[id]) > 1 {
      OpeningGoesThrough(s', id);
    }
  }

  /** Before shutdown a request that got a slot opens: its own steps leave it waiting, subscribed to every
      topic as it stands, and with the status to be sent first. */
  lemma RequestOpens(s: Service, id: nat)
    requires |s.bus| == TOPIC_COUNT && !s.shutdown && id in s.streams && s.streams[id] == FRESH_STREAM
    ensures var s' := OwnRun(s, id, PUSHED_TOPICS + 4);
            && id in s'.streams
            && var st := s'.streams[id];
               && st.phase.Idle? && st.sendStatusFirst && st.frames == [] && |st.topics| == PUSHED_TOPICS
               && forall i :: 0 <= i < PUSHED_TOPICS ==> st.topics[i] == s.bus[i + 1].version
  {
    OpeningGoesThrough(s, id);
  }

  // ---------- what a stream does not send ----------

  /** Every version the stream has subscribed to or sent is at least this. */
  predicate IsSince(st: Stream, least: seq<nat>)
    requires |least| == TOPIC_COUNT
  {
    forall i :: 0 <= i < |st.subscribedAt| && i + 1 < TOPIC_COUNT ==> st.subscribedAt[i] >= least[i + 1]
  }

  function Versions(bus: seq<Watch<nat>>): (versions: seq<nat>)
    ensures |versions| == |bus| && forall i :: 0 <= i < |bus| ==> versions[i] == bus[i].version
  {
    seq(|bus|, i requires 0 <= i < |bus| => bus[i].version)
  }

  lemma StreamStepIsSince(s: Service, id: nat, e: Event, least: seq<nat>)
    requires |s.bus| == |least| == TOPIC_COUNT && forall i :: 0 <= i < TOPIC_COUNT ==> s.bus[i].version >= least[i]
    requires id in s.streams ==>
               |s.streams[id].topics| == |s.streams[id].subscribedAt| && IsSince(s.streams[id], least)
    ensures id in Step(s, e).streams ==> IsSince(Step(s, e).streams[id], least)
  {
    if IsStreamEvent(e) && e.id in s.streams && e.id == id {
      SubscriptionIsSince(s, id, s.streams[id], e, least);
    }
  }

  lemma SubscriptionIsSince(s: Service, id: nat, st: Stream, e: Event, least: seq<nat>)
    requires |s.bus| == |least| == TOPIC_COUNT && forall i :: 0 <= i < TOPIC_COUNT ==> s.bus[i].version >= least[i]
    requires IsSince(st, least) && |st.topics| == |st.subscribedAt| && id in s.streams && s.streams[id] == st
    ensures id in StreamStep(s, id, st, e).streams ==> IsSince(StreamStep(s, id, st, e).streams[id], least)
  {
  }

  lemma VersionsOnlyRise(s: Service, e: Event, i: nat)
    requires BusOk(s.bus) && i < TOPIC_COUNT
    ensures Step(s, e).bus[i].version >= s.bus[i].version
  {
    if !e.Bumps? {
      StepLeavesBus(s, e);
    }
  }

  lemma {:induction false} LaterStreamIsSince(before: seq<Event>, later: seq<Event>, id: nat)
    requires id !in Run(before).streams
    ensures forall i :: 0 <= i < TOPIC_COUNT ==> Run(before + later).bus[i].version >= Run(before).bus[i].version
    ensures id in Run(before + later).streams ==> IsSince(Run(before + later).streams[id], Versions(Run(before).bus))
    decreases |later|
  {
    if later == [] {
      Strings.NothingAfter(before);
    } else {
      var init, e := later[..|later| - 1], later[|later| - 1];
      LaterStreamIsSince(before, init, id);
      Strings.Unsnoc(later);
      Strings.Assoc(before, init, [e]);
      Strings.Snoc(before + init, e);
      EveryRunKeepsInv(before + init);
      var s := Run(before + init);
      forall i | 0 <= i < TOPIC_COUNT ensures Step(s, e).bus[i].version >= Run(before).bus[i].version {
        VersionsOnlyRise(s, e, i);
      }
      assert id in s.streams ==> StreamOk(s.streams[id], s);
      StreamStepIsSince(s, id, e, Versions(Run(before).bus));
    }
  }

  lemma {:induction false} ClimbingMarksAreAbove(low: nat, marks: seq<nat>, i: nat)
    requires Climbs(low, marks) && i < |marks|
    ensures low < marks[i] <= LastOr(low, marks)
    decreases |marks|
  {
    var before := marks[..|marks| - 1];
    ClimbingMarksAreFew(low, before);
    if i < |before| {
      ClimbingMarksAreAbove(low, before, i);
    }
  }

  lemma TopicIndex(topic: Topic)
    requires topic != Status
    ensures 1 <= Index(topic) <= PUSHED_TOPICS
  {
  }

  lemma MarksAreSince(s: Service, id: nat, least: seq<nat>, t: nat, i: nat)
    requires Inv(s) && id in s.streams && |least| == TOPIC_COUNT && IsSince(s.streams[id], least)
    requires 1 <= t <= PUSHED_TOPICS && i < |Marks(s.streams[id].frames, t)|
    ensures least[t] < Marks(s.streams[id].frames, t)[i]
  {
    var st := s.streams[id];
    assert StreamOk(st, s);
    if t <= |st.topics| {
      assert TopicOk(st, t, s.bus[t].version);
      ClimbingMarksAreAbove(st.subscribedAt[t - 1], Marks(st.frames, t), i);
      assert st.subscribedAt[t - 1] >= least[t];
    }
  }

  /** A stream sends nothing for a bump that came before its request: each of its frames carries a later
      one. */
  lemma NoFrameForAnEarlierBump(before: seq<Event>, later: seq<Event>, id: nat, topic: Topic, i: nat)
    requires id !in Run(before).streams && id in Run(before + later).streams && topic != Status
    requires i < |Marks(Run(before + later).streams[id].frames, Index(topic))|
    ensures Bumps(before, topic) < Marks(Run(before + later).streams[id].frames, Index(topic))[i]
  {
    VersionsCountBumps(before, topic);
    LaterStreamIsSince(before, later, id);
    EveryRunKeepsInv(before + later);
    TopicIndex(topic);
    MarksAreSince(Run(before + later), id, Versions(Run(before).bus), Index(topic), i);
  }
}
