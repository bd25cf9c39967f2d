/** `EventFragment`: the screen that edits one event. Each user action is a
    transition on the fragment's `Event` record; the record reaches the
    repository only when the fragment stops.

    The date arithmetic lives in `DateUtils`, which is not part of this model:
    its three helpers are fields of a `DateUtils` value that every transition
    takes as a parameter, and nothing at all is assumed about them. */
module EventFragment {
  import opened Wrappers
  import opened Calendar
  import CalendarRepository

  /** The three `DateUtils` helpers the handlers call, left uninterpreted. */
  datatype DateUtils = DateUtils(
    combineDateAndTime: (Date, Date) -> Date,
    getNewEndTime: (Date, Date, Date) -> Date,
    fixEndTime: (Date, Date) -> Date)

  /** A user action the fragment handles. */
  datatype Edit =
    | TimeChanged(isStartTime: bool, picked: Date)     // onTimeChanged
    | DateSelected(picked: Date)                       // onDateSelected
    | TypeSelected(pickedType: EventType)              // onTypeSelected
    | TextChanged(nameText: string, descriptionText: string)  // afterTextChanged

  /** The fields of an `Event`, for stating which ones a handler may write. */
  datatype Field = Id | Name | Description | Type | StartTime | EndTime

  /** `a` and `b` hold the same value in field `f`. */
  predicate Agree(a: Event, b: Event, f: Field)
  {
    match f
    case Id => a.id == b.id
    case Name => a.name == b.name
    case Description => a.description == b.description
    case Type => a.eventType == b.eventType
    case StartTime => a.startTime == b.startTime
    case EndTime => a.endTime == b.endTime
  }

  /** `onTimeChanged`: a time picker closed with `picked`. An assignment only
      moves its start, whichever picker fired. For any other event, a new start
      also moves the end, computed from the start as it was before the pick;
      a new end leaves the start alone. */
  function OnTimeChanged(u: DateUtils, e: Event, isStartTime: bool, picked: Date): (r: Event)
    ensures r.id == e.id && r.name == e.name && r.description == e.description && r.eventType == e.eventType
    ensures e.eventType == Assignment ==>
              (r.startTime == u.combineDateAndTime(e.startTime, picked) && r.endTime == e.endTime)
    ensures e.eventType != Assignment && isStartTime ==>
              (r.startTime == u.combineDateAndTime(e.startTime, picked)
               && r.endTime == u.getNewEndTime(e.startTime, r.startTime, e.endTime))
    ensures e.eventType != Assignment && !isStartTime ==>
              (r.startTime == e.startTime && r.endTime == u.fixEndTime(e.startTime, picked))
  {
    if e.eventType != Assignment then
      if isStartTime then
        var originalStart := e.startTime;
        var e1 := e.(startTime := u.combineDateAndTime(e.startTime, picked));
        e1.(endTime := u.getNewEndTime(originalStart, e1.startTime, e1.endTime))
      else
        e.(endTime := u.fixEndTime(e.startTime, picked))
    else
      e.(startTime := u.combineDateAndTime(e.startTime, picked))
  }

  /** `onDateSelected`: the start becomes the picked date. Any event other than
      an assignment also gets its end set to that same date, so it ends where it
      starts; an assignment keeps its end. */
  function OnDateSelected(e: Event, picked: Date): (r: Event)
    ensures r.id == e.id && r.name == e.name && r.description == e.description && r.eventType == e.eventType
    ensures r.startTime == picked
    ensures e.eventType != Assignment ==> r.endTime == r.startTime
    ensures e.eventType == Assignment ==> r.endTime == e.endTime
  {
    var e1 := e.(startTime := picked);
    if e1.eventType != Assignment then e1.(endTime := picked) else e1
  }

  /** `onTypeSelected`: only the type changes; the end is neither cleared nor
      re-derived. */
  function OnTypeSelected(e: Event, picked: EventType): (r: Event)
    ensures r.eventType == picked
    ensures r.id == e.id && r.name == e.name && r.description == e.description
    ensures r.startTime == e.startTime && r.endTime == e.endTime
  {
    e.(eventType := picked)
  }

  /** `afterTextChanged`: whichever text box changed, both the name and the
      description are copied from their boxes; nothing else changes. */
  function AfterTextChanged(e: Event, nameText: string, descriptionText: string): (r: Event)
    ensures r.name == nameText && r.description == descriptionText
    ensures r.id == e.id && r.eventType == e.eventType
    ensures r.startTime == e.startTime && r.endTime == e.endTime
  {
    e.(name := nameText, description := descriptionText)
  }

  /** Dispatch one user action to its handler. */
  function ApplyEdit(u: DateUtils, e: Event, edit: Edit): Event
  {
    match edit
    case TimeChanged(isStart, d) => OnTimeChanged(u, e, isStart, d)
    case DateSelected(d) => OnDateSelected(e, d)
    case TypeSelected(t) => OnTypeSelected(e, t)
    case TextChanged(n, d) => AfterTextChanged(e, n, d)
  }

  /** The user's actions, handled one after another. */
  function ApplyEdits(u: DateUtils, e: Event, edits: seq<Edit>): Event
    decreases |edits|
  {
    if edits == [] then e else ApplyEdits(u, ApplyEdit(u, e, edits[0]), edits[1..])
  }

  /** The fields an action may write on an event of type `t`: an independent
      statement of each handler's footprint. */
  function Footprint(edit: Edit, t: EventType): set<Field>
  {
    match edit
    case TimeChanged(isStart, _) =>
      if t == Assignment then {StartTime}
      else if isStart then {StartTime, EndTime}
      else {EndTime}
    case DateSelected(_) => if t == Assignment then {StartTime} else {StartTime, EndTime}
    case TypeSelected(_) => {Type}
    case TextChanged(_, _) => {Name, Description}
  }

  /** The fields an action may write on an event of any type. */
  function MayWrite(edit: Edit): (fs: set<Field>)
    ensures forall t :: Footprint(edit, t) <= fs
  {
    match edit
    case TimeChanged(_, _) => {StartTime, EndTime}
    case DateSelected(_) => {StartTime, EndTime}
    case TypeSelected(_) => {Type}
    case TextChanged(_, _) => {Name, Description}
  }

  /** The fields some action in `edits` may write. */
  function MayWriteAny(edits: seq<Edit>): set<Field>
  {
    if edits == [] then {} else MayWrite(edits[0]) + MayWriteAny(edits[1..])
  }

  /** Every handler stays inside its footprint: a field outside it keeps its
      value. */
  lemma EditStaysInFootprint(u: DateUtils, e: Event, edit: Edit, f: Field)
    requires f !in Footprint(edit, e.eventType)
    ensures Agree(e, ApplyEdit(u, e, edit), f)
  {
  }

  /** No run of actions may write the id. */
  lemma {:induction false} IdNotWritten(edits: seq<Edit>)
    ensures Id !in MayWriteAny(edits)
    decreases |edits|
  {
    if edits != [] {
      IdNotWritten(edits[1..]);
    }
  }

  /** For an assignment, a time pick ignores which picker fired. */
  lemma AssignmentIgnoresTimeFlag(u: DateUtils, e: Event, picked: Date)
    requires e.eventType == Assignment
    ensures OnTimeChanged(u, e, true, picked) == OnTimeChanged(u, e, false, picked)
  {
  }

  /** After any run of actions, every field none of them may write keeps its
      value; in particular the id never changes. */
  lemma {:induction false} EditsFrame(u: DateUtils, e: Event, edits: seq<Edit>, f: Field)
    requires f !in MayWriteAny(edits)
    ensures Agree(e, ApplyEdits(u, e, edits), f)
    decreases |edits|
  {
    if edits != [] {
      var e1 := ApplyEdit(u, e, edits[0]);
      EditStaysInFootprint(u, e, edits[0], f);
      EditsFrame(u, e1, edits[1..], f);
      AgreeTransitive(e, e1, ApplyEdits(u, e1, edits[1..]), f);
    }
  }

  /** Agreement on a field is transitive. */
  lemma AgreeTransitive(a: Event, b: Event, c: Event, f: Field)
    requires Agree(a, b, f) && Agree(b, c, f)
    ensures Agree(a, c, f)
  {
  }

  /** No run of actions ever changes the event's id. */
  lemma EditsKeepId(u: DateUtils, e: Event, edits: seq<Edit>)
    ensures ApplyEdits(u, e, edits).id == e.id
  {
    IdNotWritten(edits);
    EditsFrame(u, e, edits, Id);
  }

  /** `onStop`: the current record is handed to `updateEvent`. */
  function OnStop<S>(p: CalendarRepository.Process<S>, e: Event): (r: Result<CalendarRepository.Process<S>, Error>)
    ensures r.Failure? <==> p.instance.None?
    ensures r.Success? ==> r.value.instance.Some?
    ensures r.Success? ==> r.value.instance.value.executor == p.instance.value.executor + [CalendarRepository.Update(e)]
  {
    CalendarRepository.Submit(p, CalendarRepository.Update(e))
  }

  /** A whole editing session: the handlers never touch the repository, and
      stopping queues exactly one update carrying the edited record, whose id
      is the one the session started with. Nothing reaches the store before the
      executor runs. */
  lemma EditSessionQueuesOneUpdate<S>(u: DateUtils, p: CalendarRepository.Process<S>, e: Event, edits: seq<Edit>)
    requires p.instance.Some?
    ensures var r := OnStop(p, ApplyEdits(u, e, edits));
      && r.Success?
      && r.value.instance.value.database == p.instance.value.database
      && r.value.instance.value.executor == p.instance.value.executor + [CalendarRepository.Update(ApplyEdits(u, e, edits))]
      && CalendarRepository.Update(ApplyEdits(u, e, edits)).event.id == e.id
  {
    EditsKeepId(u, e, edits);
  }
}
