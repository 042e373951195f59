/**
  Optional Micrometer instrumentation of the producer: a registry that may
  or may not be found, a count of records in flight, one send-latency timer
  and one payload-size summary per topic, created on first use, and send
  counters tagged by outcome. Without a registry every operation does
  nothing. The process-wide static state is one `Metrics` object; latency
  values and statistics are not modelled, only what is recorded where.
 */
module Instrumentation {

  import opened Common

  /** What the container lookup for a `MeterRegistry` gives. */
  datatype Lookup =
    | Available      // the handle is available and yields the registry
    | Unavailable    // the handle exists but holds no registry
    | LookupFails    // the lookup throws; the error is logged and swallowed

  /** The tag list of a counter, key and value alternating; a null value stays null. */
  type Tags = seq<Option<string>>

  function SuccessTags(topic: Option<string>): Tags {
    [Some("outcome"), Some("success"), Some("topic"), topic]
  }

  function FailureTags(topic: Option<string>, reason: Option<string>): Tags {
    [Some("outcome"), Some("failure"), Some("reason"), reason, Some("topic"), topic]
  }

  /** One timing of a send. `timed` is whether it holds a timer; only `NOOP` does not. */
  class Sample {
    const timed: bool
    const topic: Option<string>

    constructor (timed: bool, topic: Option<string>)
      ensures this.timed == timed && this.topic == topic
    {
      this.timed := timed;
      this.topic := topic;
    }
  }

  class Metrics {
    var registryPresent: bool
    var inFlight: int
    /** Per topic, the send-latency timer, known by how many durations it has recorded. */
    var sendTimers: map<string, nat>
    /** Per topic, the payload-size summary, known by the sizes it has recorded in order. */
    var payloadSizes: map<string, seq<int>>
    /** The send counters, all named `keycloak_kafka_producer_send_total`, by tag list. */
    var counters: map<Tags, nat>
    /** `Sample.NOOP`: the sample handed out while there is no registry. */
    const noop: Sample

    /** Every timed sample ever handed out. */
    ghost var issued: set<Sample>
    /** The timed samples handed out and not yet stopped. */
    ghost var open: set<Sample>
    /** Stops of a timed sample that had already been stopped: each one decrements again. */
    ghost var repeatStops: nat
    /** The topics whose timer or summary was created, in order of creation. */
    ghost var timersCreated: seq<string>
    ghost var summariesCreated: seq<string>

    /**
      `inFlight` counts the timed samples started and not yet stopped, less
      any repeated stops; each per-topic meter was created exactly once; and
      without a registry nothing has been recorded.
     */
    ghost predicate Valid()
      reads this
    {
      && !noop.timed && noop.topic.None?
      && noop !in issued
      && open <= issued
      && (forall s :: s in issued ==> s.timed && s.topic.Some? && s.topic.value in sendTimers)
      && inFlight == |open| - repeatStops
      && Logged(timersCreated, sendTimers.Keys)
      && Logged(summariesCreated, payloadSizes.Keys)
      && (!registryPresent ==>
            inFlight == 0 && issued == {} && repeatStops == 0
            && sendTimers == map[] && payloadSizes == map[] && counters == map[])
    }

    /** The class as loaded: no registry, nothing in flight, no meters. */
    constructor ()
      ensures Valid() && !registryPresent && inFlight == 0
      ensures sendTimers == map[] && payloadSizes == map[] && counters == map[]
      ensures timersCreated == [] && summariesCreated == []
    {
      registryPresent := false;
      inFlight := 0;
      sendTimers, payloadSizes, counters := map[], map[], map[];
      noop := new Sample(false, None);
      issued, open, repeatStops := {}, {}, 0;
      timersCreated, summariesCreated := [], [];
    }

    /**
      Looks the registry up unless it is already known. Only an available
      handle installs it; an unavailable or failing lookup leaves the
      metrics disabled.
     */
    method InitIfPossible(lookup: Lookup)
      requires Valid()
      modifies this
      ensures Valid()
      ensures registryPresent == (old(registryPresent) || lookup == Available)
      ensures inFlight == old(inFlight) && sendTimers == old(sendTimers)
      ensures payloadSizes == old(payloadSizes) && counters == old(counters)
      ensures issued == old(issued) && open == old(open) && repeatStops == old(repeatStops)
      ensures timersCreated == old(timersCreated) && summariesCreated == old(summariesCreated)
    {
      if registryPresent { return; }
      if lookup == Available {
        registryPresent := true;
      }
    }

    /**
      Starts timing a send to `topic`. Without a registry it hands out
      `NOOP` and changes nothing; with one it creates the topic's timer if
      there is none, counts one more record in flight and hands out a new
      timed sample.
     */
    method SampleSend(topic: string) returns (s: Sample)
      requires Valid()
      modifies this
      ensures Valid()
      ensures !registryPresent ==> s == noop && unchanged(this)
      ensures registryPresent ==>
                && fresh(s) && s.timed && s.topic == Some(topic)
                && registryPresent == old(registryPresent)
                && inFlight == old(inFlight) + 1
                && open == old(open) + {s} && issued == old(issued) + {s}
                && repeatStops == old(repeatStops)
                && sendTimers == (if topic in old(sendTimers) then old(sendTimers) else old(sendTimers)[topic := 0])
                && timersCreated == old(timersCreated) + (if topic in old(sendTimers) then [] else [topic])
                && payloadSizes == old(payloadSizes) && summariesCreated == old(summariesCreated)
                && counters == old(counters)
    {
      if !registryPresent { return noop; }
      TimerFor(topic);
      s := new Sample(true, Some(topic));
      assert s !in open && s !in issued;
      assert |open + {s}| == |open| + 1;
      inFlight := inFlight + 1;
      issued := issued + {s};
      open := open + {s};
    }

    /** `sendTimers.computeIfAbsent(topic, ...)`: the topic's timer, registered on first use. */
    method TimerFor(topic: string)
      requires Valid() && registryPresent
      modifies this
      ensures Valid()
      ensures sendTimers == (if topic in old(sendTimers) then old(sendTimers) else old(sendTimers)[topic := 0])
      ensures timersCreated == old(timersCreated) + (if topic in old(sendTimers) then [] else [topic])
      ensures registryPresent && inFlight == old(inFlight) && counters == old(counters)
      ensures payloadSizes == old(payloadSizes) && summariesCreated == old(summariesCreated)
      ensures issued == old(issued) && open == old(open) && repeatStops == old(repeatStops)
    {
      if topic !in sendTimers {
        LogAppend(timersCreated, sendTimers.Keys, topic);
        sendTimers := sendTimers[topic := 0];
        timersCreated := timersCreated + [topic];
      }
    }

    /**
      Records the size of one payload for `topic`, creating the topic's
      summary on first use; nothing without a registry.
     */
    method RecordPayloadSize(topic: string, bytes: int)
      requires Valid()
      modifies this
      ensures Valid()
      ensures !registryPresent ==> unchanged(this)
      ensures registryPresent ==>
                && payloadSizes == old(payloadSizes)[topic := (if topic in old(payloadSizes) then old(payloadSizes)[topic] else []) + [bytes]]
                && summariesCreated == old(summariesCreated) + (if topic in old(payloadSizes) then [] else [topic])
                && registryPresent == old(registryPresent) && inFlight == old(inFlight)
                && sendTimers == old(sendTimers) && timersCreated == old(timersCreated)
                && counters == old(counters)
                && issued == old(issued) && open == old(open) && repeatStops == old(repeatStops)
    {
      if !registryPresent { return; }
      if topic !in payloadSizes {
        LogAppend(summariesCreated, payloadSizes.Keys, topic);
        payloadSizes := payloadSizes[topic := []];
        summariesCreated := summariesCreated + [topic];
      }
      payloadSizes := payloadSizes[topic := payloadSizes[topic] + [bytes]];
    }

    /** Increments the send counter with the given tags, creating it at zero first; nothing without a registry. */
    method Count(tags: Tags)
      requires Valid()
      modifies this
      ensures Valid()
      ensures counters == if registryPresent then Bumped(old(counters), tags) else old(counters)
      ensures registryPresent == old(registryPresent) && inFlight == old(inFlight)
      ensures sendTimers == old(sendTimers) && payloadSizes == old(payloadSizes)
      ensures timersCreated == old(timersCreated) && summariesCreated == old(summariesCreated)
      ensures issued == old(issued) && open == old(open) && repeatStops == old(repeatStops)
    {
      if !registryPresent { return; }
      counters := counters[tags := CountOf(counters, tags) + 1];
    }

    /** Counts one successful send to `topic`; nothing without a registry. */
    method MarkSuccess(topic: Option<string>)
      requires Valid()
      modifies this
      ensures Valid()
      ensures counters == if registryPresent then Bumped(old(counters), SuccessTags(topic)) else old(counters)
      ensures registryPresent == old(registryPresent) && inFlight == old(inFlight)
      ensures sendTimers == old(sendTimers) && payloadSizes == old(payloadSizes)
      ensures timersCreated == old(timersCreated) && summariesCreated == old(summariesCreated)
      ensures issued == old(issued) && open == old(open) && repeatStops == old(repeatStops)
    {
      Count(SuccessTags(topic));
    }

    /** Counts one failed send to `topic`, tagged with why it failed; nothing without a registry. */
    method MarkFailure(topic: Option<string>, reason: Option<string>)
      requires Valid()
      modifies this
      ensures Valid()
      ensures counters == if registryPresent then Bumped(old(counters), FailureTags(topic, reason)) else old(counters)
      ensures registryPresent == old(registryPresent) && inFlight == old(inFlight)
      ensures sendTimers == old(sendTimers) && payloadSizes == old(payloadSizes)
      ensures timersCreated == old(timersCreated) && summariesCreated == old(summariesCreated)
      ensures issued == old(issued) && open == old(open) && repeatStops == old(repeatStops)
    {
      Count(FailureTags(topic, reason));
    }

    /**
      `Sample.stop`: a timed sample records one duration on its topic's
      timer and takes one record out of flight; `NOOP` does nothing. A
      sample stopped twice decrements twice.
     */
    method Stop(s: Sample)
      requires Valid()
      requires s == noop || s in issued
      modifies this
      ensures Valid()
      ensures sendTimers == if s.timed then Recorded(old(sendTimers), s.topic.value) else old(sendTimers)
      ensures inFlight == old(inFlight) - (if s.timed then 1 else 0)
      ensures open == old(open) - {s}
      ensures repeatStops == (if s.timed && s !in old(open) then old(repeatStops) + 1 else old(repeatStops))
      ensures registryPresent == old(registryPresent) && issued == old(issued)
      ensures payloadSizes == old(payloadSizes) && counters == old(counters)
      ensures timersCreated == old(timersCreated) && summariesCreated == old(summariesCreated)
    {
      if !s.timed { return; }
      var t := s.topic.value;
      sendTimers := Recorded(sendTimers, t);
      assert sendTimers.Keys == old(sendTimers).Keys;
      inFlight := inFlight - 1;
      if s in open {
        open := open - {s};
      } else {
        repeatStops := repeatStops + 1;
      }
    }

    /** `Sample.stopSuccess`: stops the sample, then counts a success on its topic. */
    method StopSuccess(s: Sample)
      requires Valid()
      requires s == noop || s in issued
      modifies this
      ensures Valid()
      ensures sendTimers == if s.timed then Recorded(old(sendTimers), s.topic.value) else old(sendTimers)
      ensures inFlight == old(inFlight) - (if s.timed then 1 else 0)
      ensures open == old(open) - {s}
      ensures counters == if registryPresent then Bumped(old(counters), SuccessTags(s.topic)) else old(counters)
      ensures registryPresent == old(registryPresent) && issued == old(issued)
      ensures payloadSizes == old(payloadSizes)
      ensures repeatStops == (if s.timed && s !in old(open) then old(repeatStops) + 1 else old(repeatStops))
      ensures timersCreated == old(timersCreated) && summariesCreated == old(summariesCreated)
    {
      Stop(s);
      MarkSuccess(s.topic);
    }

    /** `Sample.stopFailure`: stops the sample, then counts a failure on its topic with the given reason. */
    method StopFailure(s: Sample, reason: Option<string>)
      requires Valid()
      requires s == noop || s in issued
      modifies this
      ensures Valid()
      ensures sendTimers == if s.timed then Recorded(old(sendTimers), s.topic.value) else old(sendTimers)
      ensures inFlight == old(inFlight) - (if s.timed then 1 else 0)
      ensures open == old(open) - {s}
      ensures counters == if registryPresent then Bumped(old(counters), FailureTags(s.topic, reason)) else old(counters)
      ensures registryPresent == old(registryPresent) && issued == old(issued)
      ensures payloadSizes == old(payloadSizes)
      ensures repeatStops == (if s.timed && s !in old(open) then old(repeatStops) + 1 else old(repeatStops))
      ensures timersCreated == old(timersCreated) && summariesCreated == old(summariesCreated)
    {
      Stop(s);
      MarkFailure(s.topic, reason);
    }
  }

  /** The timers after one more duration is recorded on `topic`'s timer. */
  function Recorded(timers: map<string, nat>, topic: string): map<string, nat> {
    timers[topic := (if topic in timers then timers[topic] else 0) + 1]
  }

  /** The counters after the one tagged `tags` is incremented. */
  function Bumped(counters: map<Tags, nat>, tags: Tags): map<Tags, nat> {
    counters[tags := CountOf(counters, tags) + 1]
  }

  /** The current value of a counter; one never incremented reads 0. */
  function CountOf(counters: map<Tags, nat>, tags: Tags): nat {
    if tags in counters then counters[tags] else 0
  }

  /** `log` lists the keys of `keys`, each exactly once: every meter in the map was created once. */
  ghost predicate Logged(log: seq<string>, keys: set<string>) {
    && (forall i, j :: 0 <= i < j < |log| ==> log[i] != log[j])
    && (forall t :: t in keys <==> t in log)
  }

  /** Creating a meter for a new key keeps the creation log exact. */
  lemma LogAppend(log: seq<string>, keys: set<string>, t: string)
    requires Logged(log, keys) && t !in keys
    ensures Logged(log + [t], keys + {t})
  {
    assert t !in log;
  }

  /**
    A send that is sampled and then stopped, successfully or not, leaves
    the in-flight count where it was, and a timer for its topic exists
    afterwards exactly when there is a registry.
   */
  method SampledSendIsBalanced(m: Metrics, topic: string, ok: bool)
    requires m.Valid()
    modifies m
    ensures m.Valid()
    ensures m.inFlight == old(m.inFlight) && m.open == old(m.open)
    ensures m.registryPresent == old(m.registryPresent)
    ensures topic in m.sendTimers <==> m.registryPresent
  {
    var s := m.SampleSend(topic);
    if ok {
      m.StopSuccess(s);
    } else {
      m.StopFailure(s, Some("error"));
    }
  }

  /** While no sample has been stopped twice, `inFlight` is exactly the number of open samples. */
  lemma InFlightCountsOpen(m: Metrics)
    requires m.Valid() && m.repeatStops == 0
    ensures m.inFlight == |m.open|
  {
  }

  /**
    `Sample.stop` has no guard: stopping the same timed sample a second time
    takes 1 from `inFlight` again and records a second duration, so the
    gauge ends one below the number of samples still open.
   */
  method StoppingTwiceCountsTwice(m: Metrics, topic: string)
    requires m.Valid() && m.registryPresent
    modifies m
    ensures m.Valid()
    ensures m.inFlight == old(m.inFlight) - 1 && m.open == old(m.open)
    ensures m.repeatStops == old(m.repeatStops) + 1
    ensures topic in m.sendTimers
    ensures m.sendTimers[topic] == (if topic in old(m.sendTimers) then old(m.sendTimers)[topic] else 0) + 2
    ensures CountOf(m.counters, SuccessTags(Some(topic))) == CountOf(old(m.counters), SuccessTags(Some(topic))) + 2
  {
    var s := m.SampleSend(topic);
    m.StopSuccess(s);
    m.StopSuccess(s);
  }
}
