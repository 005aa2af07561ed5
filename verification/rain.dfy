/** The rain tracker (src/helpers.py): a list of rain events and the total
    that fell "in the past hour".

    The past-hour filter reads `timedelta.seconds`, which is only the
    seconds-within-a-day field of `now - event.time`, not the whole age.
    An event therefore counts when its age, taken modulo one day, is below
    3601 seconds: events about a day old count again, and an event dated in
    the future (negative age, so `seconds` close to 86400) does not.

    The clock read by `datetime.now()` is the parameter `now`. */
module Rain {
  import opened Wrappers
  import opened Timedelta

  /** The window bound compared against `timedelta.seconds`: one hour. */
  const WindowSeconds: int := 60 * 60

  /** `RainEvent`: an amount of rain in millimetres and when it fell. */
  datatype RainEvent = RainEvent(amountMm: real, time: Instant)

  /** `RainTracker`, with the list the code intends it to hold. */
  datatype RainTracker = RainTracker(events: seq<RainEvent>)

  /** The filter of `get_past_hour`: an event is skipped when
      `(now - event.time).seconds > 3600`, so it counts when that field is
      at most 3600. Over the whole domain that is: the age taken modulo one
      day is under 3601 seconds. */
  predicate InPastHour(e: RainEvent, now: Instant): (counted: bool)
    ensures counted <==> (now - e.time) % MicrosPerDay < (WindowSeconds + 1) * MicrosPerSecond
  {
    Between(now, e.time).seconds <= WindowSeconds
  }

  /** The events `get_past_hour` counts: every occurrence of an event that
      passes the filter, and nothing else. */
  function Window(events: seq<RainEvent>, now: Instant): (w: seq<RainEvent>)
    ensures |w| <= |events|
    ensures forall e :: e in w <==> e in events && InPastHour(e, now)
    ensures forall e :: multiset(w)[e] == if InPastHour(e, now) then multiset(events)[e] else 0
  {
    if |events| == 0 then []
    else
      var earlier := Window(events[..|events| - 1], now);
      var last := events[|events| - 1];
      assert events == events[..|events| - 1] + [last];
      if InPastHour(last, now) then earlier + [last] else earlier
  }

  /** The sum of the amounts of a list of events. */
  function TotalMm(events: seq<RainEvent>): real
  {
    if |events| == 0 then 0.0
    else TotalMm(events[..|events| - 1]) + events[|events| - 1].amountMm
  }

  /** What `get_past_hour` should return: the rain of the counted events. */
  function PastHour(events: seq<RainEvent>, now: Instant): real
  {
    TotalMm(Window(events, now))
  }

  /** A tracker with no events: the initial state the class intends
      (its `rain_events` is declared but never assigned). */
  function NewTracker(): (t: RainTracker)
    ensures forall now :: PastHour(t.events, now) == 0.0
  {
    RainTracker([])
  }

  /** `register_rain` as intended: the new event goes at the end, the
      earlier events stay as they were, and the tracker is returned. The
      code as written names an undefined `rain_event` instead of
      `self.rain_events`; see RegisterRainAsWritten. */
  function RegisterRain(tracker: RainTracker, rain: RainEvent): (r: RainTracker)
    ensures |r.events| == |tracker.events| + 1
    ensures r.events[..|tracker.events|] == tracker.events
    ensures r.events[|tracker.events|] == rain
  {
    RainTracker(tracker.events + [rain])
  }

  /** `get_past_hour`: the loop of the source, accumulating the amounts of
      the events that pass the filter. The tracker is a value, so the call
      cannot change its events. */
  method GetPastHour(tracker: RainTracker, now: Instant) returns (rain: real)
    ensures rain == PastHour(tracker.events, now)
  {
    var events := tracker.events;
    rain := 0.0;
    var i := 0;
    while i < |events|
      invariant 0 <= i <= |events|
      invariant rain == PastHour(events[..i], now)
    {
      var event := events[i];
      PastHourStep(events, i, now);
      if Between(now, event.time).seconds > WindowSeconds {
        i := i + 1;
        continue;
      }
      rain := rain + event.amountMm;
      i := i + 1;
    }
    assert events[..i] == events;
  }

  // ---------------------------------------------------------------------
  // The window filter

  /** Within the first day of age the filter is an ordinary window: an
      event counts exactly when it is under 3601 seconds old, so one
      exactly an hour old counts and one an hour and a second old does not. */
  lemma InPastHourWithinFirstDay(e: RainEvent, now: Instant)
    requires 0 <= now - e.time < MicrosPerDay
    ensures InPastHour(e, now) <==> now - e.time < (WindowSeconds + 1) * MicrosPerSecond
  {
    var age := now - e.time;
    NormalisedUnique(Between(now, e.time), Timedelta(0, age / MicrosPerSecond, age % MicrosPerSecond));
  }

  /** The filter repeats every day: moving an event a whole number of days
      into the past or the future does not change whether it counts. */
  lemma InPastHourPeriodic(e: RainEvent, now: Instant, k: int)
    ensures InPastHour(RainEvent(e.amountMm, e.time - k * MicrosPerDay), now) <==> InPastHour(e, now)
  {
    assert now - (e.time - k * MicrosPerDay) == (now + k * MicrosPerDay) - e.time;
    ShiftByDays(now, e.time, k);
  }

  /** The consequences of reading `.seconds`: the hour boundary is
      inclusive, an event a day and ten minutes old counts again, and an
      event ten seconds in the future (whose `.seconds` is 86390) does not. */
  lemma WindowBoundaries(amount: real, now: Instant)
    ensures InPastHour(RainEvent(amount, now - 3600 * MicrosPerSecond), now)
    ensures InPastHour(RainEvent(amount, now - 3600 * MicrosPerSecond - 999_999), now)
    ensures !InPastHour(RainEvent(amount, now - 3601 * MicrosPerSecond), now)
    ensures InPastHour(RainEvent(amount, now - MicrosPerDay - 600 * MicrosPerSecond), now)
    ensures Between(now, now + 10 * MicrosPerSecond) == Timedelta(-1, 86_390, 0)
    ensures !InPastHour(RainEvent(amount, now + 10 * MicrosPerSecond), now)
  {
    InPastHourWithinFirstDay(RainEvent(amount, now - 3600 * MicrosPerSecond), now);
    InPastHourWithinFirstDay(RainEvent(amount, now - 3600 * MicrosPerSecond - 999_999), now);
    InPastHourWithinFirstDay(RainEvent(amount, now - 3601 * MicrosPerSecond), now);
    var tenMinutes := RainEvent(amount, now - 600 * MicrosPerSecond);
    InPastHourWithinFirstDay(tenMinutes, now);
    InPastHourPeriodic(tenMinutes, now, 1);
    NormalisedUnique(Between(now, now + 10 * MicrosPerSecond), Timedelta(-1, 86_390, 0));
  }

  // ---------------------------------------------------------------------
  // The past-hour total

  /** Adding one event to the end adds its amount when it passes the filter. */
  lemma PastHourAppend(events: seq<RainEvent>, e: RainEvent, now: Instant)
    ensures PastHour(events + [e], now)
         == PastHour(events, now) + (if InPastHour(e, now) then e.amountMm else 0.0)
  {
    assert (events + [e])[..|events + [e]| - 1] == events;
  }

  /** One more iteration of the loop of `get_past_hour`: the total over
      the first i + 1 events is the total over the first i, plus the next
      event's amount unless the filter skips it. */
  lemma PastHourStep(events: seq<RainEvent>, i: nat, now: Instant)
    requires i < |events|
    ensures PastHour(events[..i + 1], now)
         == PastHour(events[..i], now)
            + (if Between(now, events[i].time).seconds > WindowSeconds then 0.0 else events[i].amountMm)
  {
    assert events[..i + 1] == events[..i] + [events[i]];
    PastHourAppend(events[..i], events[i], now);
  }

  /** The total of two lists one after the other is the sum of their totals. */
  lemma {:induction false} PastHourConcat(a: seq<RainEvent>, b: seq<RainEvent>, now: Instant)
    ensures PastHour(a + b, now) == PastHour(a, now) + PastHour(b, now)
    decreases |b|
  {
    if |b| == 0 {
      assert a + b == a;
    } else {
      var init := b[..|b| - 1];
      var last := b[|b| - 1];
      assert b == init + [last];
      assert a + b == (a + init) + [last];
      PastHourConcat(a, init, now);
      PastHourAppend(a + init, last, now);
      PastHourAppend(init, last, now);
    }
  }

  /** The total does not depend on the order of the events. */
  lemma {:induction false} PastHourPermutation(a: seq<RainEvent>, b: seq<RainEvent>, now: Instant)
    requires multiset(a) == multiset(b)
    ensures PastHour(a, now) == PastHour(b, now)
    decreases |a|
  {
    if |a| == 0 {
      assert |b| == |multiset(b)| == 0;
    } else {
      var init := a[..|a| - 1];
      var last := a[|a| - 1];
      assert a == init + [last];
      assert last in multiset(b);
      var j :| 0 <= j < |b| && b[j] == last;
      var before, after := b[..j], b[j + 1..];
      assert b == before + [last] + after;
      CancelOne(init, last, before, after);
      PastHourPermutation(init, before + after, now);
      PastHourAppend(init, last, now);
      PastHourConcat(before, after, now);
      PastHourConcat(before + [last], after, now);
      PastHourAppend(before, last, now);
    }
  }

  /** Taking the same element out of two lists with equal multisets leaves
      lists with equal multisets. */
  lemma CancelOne<T>(rest: seq<T>, x: T, before: seq<T>, after: seq<T>)
    requires multiset(rest + [x]) == multiset(before + [x] + after)
    ensures multiset(rest) == multiset(before + after)
  {
    calc {
      multiset(rest);
      multiset(rest + [x]) - multiset{x};
      multiset(before + [x] + after) - multiset{x};
      multiset(before) + multiset(after);
      multiset(before + after);
    }
  }

  /** With no negative amounts the past-hour total lies between zero and
      the total of every event. */
  lemma {:induction false} PastHourBounds(events: seq<RainEvent>, now: Instant)
    requires forall i :: 0 <= i < |events| ==> events[i].amountMm >= 0.0
    ensures 0.0 <= PastHour(events, now) <= TotalMm(events)
  {
    if |events| > 0 {
      var init := events[..|events| - 1];
      var last := events[|events| - 1];
      assert events == init + [last];
      PastHourBounds(init, now);
      PastHourAppend(init, last, now);
    }
  }

  /** A new tracker has seen no rain. */
  lemma NewTrackerPastHourIsZero(now: Instant)
    ensures NewTracker().events == []
    ensures PastHour(NewTracker().events, now) == 0.0
  {
  }

  /** Registering rain raises the past-hour total by its amount exactly
      when it passes the filter. */
  lemma RegisterThenPastHour(tracker: RainTracker, rain: RainEvent, now: Instant)
    ensures PastHour(RegisterRain(tracker, rain).events, now)
         == PastHour(tracker.events, now) + (if InPastHour(rain, now) then rain.amountMm else 0.0)
  {
    PastHourAppend(tracker.events, rain, now);
  }

  // ---------------------------------------------------------------------
  // The class as written

  /** The exceptions the code as written raises. */
  datatype PyError = NameError(name: string) | AttributeError(name: string)

  /** The object the class as written produces: `rain_events` is only an
      annotation, so a fresh tracker has no such attribute (None). */
  datatype DeclaredTracker = DeclaredTracker(rainEvents: Option<seq<RainEvent>>)

  function FreshDeclaredTracker(): DeclaredTracker
  {
    DeclaredTracker(None)
  }

  /** `register_rain` as written: the name `rain_event` is not defined,
      so every call raises before anything is recorded. */
  function RegisterRainAsWritten(tracker: DeclaredTracker, rain: RainEvent): (r: Result<DeclaredTracker, PyError>)
    ensures r.Failure? && r.error.NameError?
  {
    Failure(NameError("rain_event"))
  }

  /** `get_past_hour` as written: reading the missing attribute raises;
      otherwise it returns the past-hour total. */
  function GetPastHourAsWritten(tracker: DeclaredTracker, now: Instant): (r: Result<real, PyError>)
    ensures r.Failure? <==> tracker.rainEvents.None?
    ensures r.Success? ==> r.value == PastHour(tracker.rainEvents.value, now)
  {
    match tracker.rainEvents
    case None => Failure(AttributeError("rain_events"))
    case Some(events) => Success(PastHour(events, now))
  }

  /** The class as written can never report rain: registering fails on a
      fresh tracker and on every other, and asking a fresh tracker for its
      total fails too, whereas the intended tracker records the event. */
  lemma AsWrittenTrackerLosesRain(tracker: DeclaredTracker, rain: RainEvent, now: Instant)
    requires InPastHour(rain, now)
    ensures RegisterRainAsWritten(tracker, rain).Failure?
    ensures GetPastHourAsWritten(FreshDeclaredTracker(), now).Failure?
    ensures PastHour(RegisterRain(NewTracker(), rain).events, now) == rain.amountMm
  {
    RegisterThenPastHour(NewTracker(), rain, now);
  }
}
