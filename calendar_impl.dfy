/**
 * `calendar_privacy_poc/host/src/calendar_impl.rs`: folding the properties of
 * iCalendar events into `CalendarEvent`s, and the fixed free-slot heuristic.
 * Opening the file and the iCalendar parser are left out: the file is given
 * as what the parser yields, one entry per calendar, `None` for a calendar
 * the parser could not read.
 */
module CalendarImport {
  import opened Wrappers
  import opened CalendarHost

  /** A property as the parser hands it over: a name and an optional value. */
  datatype Property = Property(name: string, value: Option<string>)

  /** A parsed event is its list of properties, in file order. */
  type RawEvent = seq<Property>

  datatype LoadError = OpenFailed(path: string) | ParseFailed

  /** The fields before any property has been read. */
  const Blank: CalendarEvent := CalendarEvent("Untitled", "", "", "", "")

  /** A property's value, the empty string when it has none. */
  function ValueOf(p: Property): (r: string)
    ensures p.value.Some? ==> r == p.value.value
    ensures p.value.None? ==> r == ""
  {
    match p.value
    case Some(v) => v
    case None => ""
  }

  /** One step of the property fold: the five known names set their field, any other name is ignored. */
  function Apply(e: CalendarEvent, p: Property): CalendarEvent
  {
    match p.name
    case "SUMMARY" => e.(title := ValueOf(p))
    case "DTSTART" => e.(start := ValueOf(p))
    case "DTEND" => e.(end := ValueOf(p))
    case "LOCATION" => e.(location := ValueOf(p))
    case "DESCRIPTION" => e.(description := ValueOf(p))
    case _ => e
  }

  /** The event the properties fold into, starting from `Blank`. */
  function EventOf(props: seq<Property>): CalendarEvent
  {
    if |props| == 0 then Blank else Apply(EventOf(props[..|props| - 1]), props[|props| - 1])
  }

  /** Reference definition: the value of the last property called `name`, or `default` if there is none. */
  function LastValue(props: seq<Property>, name: string, default: string): (r: string)
    ensures (forall k :: 0 <= k < |props| ==> props[k].name != name) ==> r == default
  {
    if |props| == 0 then default
    else if props[|props| - 1].name == name then ValueOf(props[|props| - 1])
    else LastValue(props[..|props| - 1], name, default)
  }

  /** The events of one calendar that are kept: those with a non-empty start, in order. */
  function Emitted(raws: seq<RawEvent>): seq<CalendarEvent>
  {
    if |raws| == 0 then []
    else
      var e := EventOf(raws[|raws| - 1]);
      Emitted(raws[..|raws| - 1]) + (if e.start != "" then [e] else [])
  }

  /** The events of all calendars, or the parse failure if any calendar could not be read. */
  function Loaded(cals: seq<Option<seq<RawEvent>>>): Result<seq<CalendarEvent>, LoadError>
  {
    if |cals| == 0 then Ok([])
    else
      match Loaded(cals[..|cals| - 1])
      case Err(err) => Err(err)
      case Ok(es) =>
        if cals[|cals| - 1].None? then Err(ParseFailed)
        else Ok(es + Emitted(cals[|cals| - 1].value))
  }

  /** The result of `load_events` on a file the parser reads as `file`, `None` when it cannot be opened. */
  function LoadResult(path: string, file: Option<seq<Option<seq<RawEvent>>>>): Result<seq<CalendarEvent>, LoadError>
  {
    if file.None? then Err(OpenFailed(path)) else Loaded(file.value)
  }

  /** Every field of the folded event is the last value given for its name, or the default. */
  lemma {:induction false} EventFields(props: seq<Property>)
    ensures EventOf(props) == CalendarEvent(
      LastValue(props, "SUMMARY", "Untitled"), LastValue(props, "DTSTART", ""),
      LastValue(props, "DTEND", ""), LastValue(props, "LOCATION", ""),
      LastValue(props, "DESCRIPTION", ""))
  {
    if |props| > 0 {
      EventFields(props[..|props| - 1]);
    }
  }

  /** A later property of a known name overrides every earlier one. */
  lemma LastWins(props: seq<Property>, p: Property)
    ensures p.name == "SUMMARY" ==> EventOf(props + [p]).title == ValueOf(p)
    ensures p.name == "DTSTART" ==> EventOf(props + [p]).start == ValueOf(p)
    ensures p.name == "DTEND" ==> EventOf(props + [p]).end == ValueOf(p)
    ensures p.name == "LOCATION" ==> EventOf(props + [p]).location == ValueOf(p)
    ensures p.name == "DESCRIPTION" ==> EventOf(props + [p]).description == ValueOf(p)
  {
    assert (props + [p])[..|props|] == props;
  }

  /** A property of any other name changes nothing, wherever it appears. */
  lemma {:induction false} OtherIgnored(a: seq<Property>, p: Property, b: seq<Property>)
    requires p.name !in {"SUMMARY", "DTSTART", "DTEND", "LOCATION", "DESCRIPTION"}
    ensures EventOf(a + [p] + b) == EventOf(a + b)
  {
    if |b| == 0 {
      assert a + [p] + b == a + [p];
      assert (a + [p])[..|a|] == a;
      assert a + b == a;
    } else {
      var b' := b[..|b| - 1];
      OtherIgnored(a, p, b');
      assert (a + [p] + b)[..|a + [p] + b| - 1] == a + [p] + b';
      assert (a + b)[..|a + b| - 1] == a + b';
    }
  }

  /** Without any property the event has the defaults. */
  lemma NoPropertiesDefaults()
    ensures EventOf([]) == CalendarEvent("Untitled", "", "", "", "")
    ensures Emitted([[]]) == []
  {
    var raws: seq<RawEvent> := [[]];
    assert raws[..0] == [];
  }

  /** Emitting keeps order: the events of two runs of raw events are those of each, concatenated. */
  lemma {:induction false} EmittedAppend(a: seq<RawEvent>, b: seq<RawEvent>)
    ensures Emitted(a + b) == Emitted(a) + Emitted(b)
  {
    if |b| == 0 {
      assert a + b == a;
    } else {
      var b' := b[..|b| - 1];
      EmittedAppend(a, b');
      assert (a + b)[..|a + b| - 1] == a + b';
      assert (a + b)[|a + b| - 1] == b[|b| - 1];
    }
  }

  /** An event is emitted exactly when its start is non-empty. */
  lemma EmittedOne(raw: RawEvent)
    ensures Emitted([raw]) == if EventOf(raw).start != "" then [EventOf(raw)] else []
  {
    assert [raw][..0] == [];
  }

  /** Every emitted event has a start and comes from one of the raw events; every raw event with a start is emitted. */
  lemma {:induction false} EmittedIff(raws: seq<RawEvent>)
    ensures forall e :: e in Emitted(raws) ==> e.start != "" && exists k :: 0 <= k < |raws| && EventOf(raws[k]) == e
    ensures forall k :: 0 <= k < |raws| && EventOf(raws[k]).start != "" ==> EventOf(raws[k]) in Emitted(raws)
    ensures |Emitted(raws)| <= |raws|
  {
    if |raws| > 0 {
      var pre := raws[..|raws| - 1];
      EmittedIff(pre);
      forall e | e in Emitted(raws)
        ensures e.start != "" && exists k :: 0 <= k < |raws| && EventOf(raws[k]) == e
      {
        if e in Emitted(pre) {
          var k :| 0 <= k < |pre| && EventOf(pre[k]) == e;
          assert raws[k] == pre[k];
        } else {
          assert EventOf(raws[|raws| - 1]) == e;
        }
      }
      forall k | 0 <= k < |raws| && EventOf(raws[k]).start != ""
        ensures EventOf(raws[k]) in Emitted(raws)
      {
        if k < |raws| - 1 {
          assert raws[k] == pre[k];
        }
      }
    }
  }

  /** Loading fails exactly when some calendar could not be parsed. */
  lemma {:induction false} LoadedErrIff(cals: seq<Option<seq<RawEvent>>>)
    ensures Loaded(cals).Err? <==> exists i :: 0 <= i < |cals| && cals[i].None?
    ensures Loaded(cals).Err? ==> Loaded(cals).error == ParseFailed
  {
    if |cals| > 0 {
      var pre := cals[..|cals| - 1];
      LoadedErrIff(pre);
      if exists i :: 0 <= i < |pre| && pre[i].None? {
        var i :| 0 <= i < |pre| && pre[i].None?;
        assert cals[i] == pre[i];
      }
      if exists i :: 0 <= i < |cals| && cals[i].None? {
        var i :| 0 <= i < |cals| && cals[i].None?;
        if i < |cals| - 1 {
          assert pre[i] == cals[i];
        }
      }
    }
  }

  /** Calendars are loaded in order: the events of two runs of calendars are those of each, concatenated. */
  lemma {:induction false} LoadedAppend(a: seq<Option<seq<RawEvent>>>, b: seq<Option<seq<RawEvent>>>)
    requires Loaded(a).Ok? && Loaded(b).Ok?
    ensures Loaded(a + b) == Ok(Loaded(a).value + Loaded(b).value)
  {
    if |b| == 0 {
      assert a + b == a;
      assert Loaded(b).value == [];
      assert Loaded(a).value + [] == Loaded(a).value;
    } else {
      var b' := b[..|b| - 1];
      assert Loaded(b').Ok? && b[|b| - 1].Some?;
      var last := Emitted(b[|b| - 1].value);
      assert Loaded(b).value == Loaded(b').value + last;
      LoadedAppend(a, b');
      assert (a + b)[..|a + b| - 1] == a + b';
      assert (a + b)[|a + b| - 1] == b[|b| - 1];
      assert Loaded(a + b).value == (Loaded(a).value + Loaded(b').value) + last;
      assert (Loaded(a).value + Loaded(b').value) + last == Loaded(a).value + (Loaded(b').value + last);
    }
  }

  /**
   * `load_events`: folds the properties of every event of every calendar,
   * keeps the events with a start, and stops at the first calendar the
   * parser failed on.
   */
  method LoadEvents(path: string, file: Option<seq<Option<seq<RawEvent>>>>) returns (r: Result<seq<CalendarEvent>, LoadError>)
    ensures r == LoadResult(path, file)
  {
    if file.None? {
      return Err(OpenFailed(path));
    }
    var cals := file.value;
    var events: seq<CalendarEvent> := [];
    var i := 0;
    while i < |cals|
      invariant 0 <= i <= |cals|
      invariant Loaded(cals[..i]) == Ok(events)
    {
      assert cals[..i + 1][..i] == cals[..i];
      if cals[i].None? {
        LoadedErrIff(cals[..i + 1]);
        LoadedErrIff(cals);
        assert cals[i] == cals[..i + 1][i];
        return Err(ParseFailed);
      }
      var raws := cals[i].value;
      var before := events;
      var k := 0;
      while k < |raws|
        invariant 0 <= k <= |raws|
        invariant events == before + Emitted(raws[..k])
      {
        var props := raws[k];
        var title, start, end, location, description := "Untitled", "", "", "", "";
        var j := 0;
        while j < |props|
          invariant 0 <= j <= |props|
          invariant CalendarEvent(title, start, end, location, description) == EventOf(props[..j])
        {
          var p := props[j];
          assert props[..j + 1][..j] == props[..j];
          match p.name {
            case "SUMMARY" => title := ValueOf(p);
            case "DTSTART" => start := ValueOf(p);
            case "DTEND" => end := ValueOf(p);
            case "LOCATION" => location := ValueOf(p);
            case "DESCRIPTION" => description := ValueOf(p);
            case _ =>
          }
          j := j + 1;
        }
        assert props[..|props|] == props;
        assert raws[..k + 1][..k] == raws[..k];
        if start != "" {
          events := events + [CalendarEvent(title, start, end, location, description)];
        }
        k := k + 1;
      }
      assert raws[..|raws|] == raws;
      i := i + 1;
    }
    assert cals[..|cals|] == cals;
    return Ok(events);
  }

  /** `derive_free_slots`: whatever the events, the two free windows the host also reports. */
  function DeriveFreeSlots(events: seq<CalendarEvent>): (r: seq<TimeWindow>)
    ensures r == FreeSlots()
    ensures |r| == 2 && r[0].isFree && r[1].isFree
  {
    [TimeWindow("2023-10-27T10:00:00Z", "2023-10-27T11:00:00Z", true),
     TimeWindow("2023-10-27T14:00:00Z", "2023-10-27T15:00:00Z", true)]
  }
}
