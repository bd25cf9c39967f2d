/** `ListFragment`: the day's event list. Two of its handlers write: the
    app-bar menu creates a new event, and `SwipeToDelete.onSwiped` queues the
    removal of a row's event. The source never constructs `SwipeToDelete` nor
    attaches it to the list, so `onSwiped` is modelled as written although no
    swipe reaches it. */
module ListFragment {
  import opened Wrappers
  import opened Calendar
  import CalendarRepository

  /** One hour in milliseconds, the default length of a new event. */
  const OneHourMillis: int := 3600000

  /** The app-bar menu items: `R.id.new_event`, `R.id.new_assignment`, or any other. */
  datatype MenuItem = NewEventItem | NewAssignmentItem | OtherItem(itemId: int)

  /** What the fragment does with its host, in order. */
  datatype Effect =
    | Queued(command: CalendarRepository.Command)  // a write handed to the repository
    | EventSelected(event: Event)                  // callbacks.onEventSelected

  /** The outcome of `onOptionsItemSelected` when it does not throw. */
  datatype MenuOutcome<S> =
    | Handled(process: CalendarRepository.Process<S>, effects: seq<Effect>)  // returns true
    | Delegated                                                             // super.onOptionsItemSelected

  /** The record a new event starts as: `blank` is what `new Event()` builds
      (its id, name, description and type come from `Event`, which is not part of
      this model); the start is the list's date, and the end is one hour later
      in Java `long` arithmetic. */
  function NewEventAt(blank: Event, date: Date): (e: Event)
    ensures e.id == blank.id && e.name == blank.name && e.description == blank.description
    ensures e.eventType == blank.eventType
    ensures e.startTime == date
    ensures (e.endTime.millis as int - date.millis as int - OneHourMillis) % LongModulus == 0
  {
    blank.(startTime := date, endTime := Date(WrapLong(date.millis as int + OneHourMillis)))
  }

  /** The end of a new event is exactly one hour after its start, except for a
      start within an hour of the largest `long`, where Java's addition wraps
      around and the end lands before the start. */
  lemma NewEventOneHourLong(blank: Event, date: Date)
    ensures date.millis as int <= LongMax - OneHourMillis ==>
              NewEventAt(blank, date).endTime.millis as int == date.millis as int + OneHourMillis
    ensures date.millis as int > LongMax - OneHourMillis ==>
              NewEventAt(blank, date).endTime.millis as int == date.millis as int + OneHourMillis - LongModulus
              && NewEventAt(blank, date).endTime.millis < date.millis
  {
  }

  /** `onOptionsItemSelected`. Both "new" items build the same record from the
      list's current date, hand it to `addEvent`, then report it to the host as
      selected; neither sets a type. While the repository has no instance,
      `get` throws before anything is queued or selected. Any other item is
      passed to the superclass untouched. */
  function OnOptionsItemSelected<S>(p: CalendarRepository.Process<S>, date: Date, blank: Event, item: MenuItem)
    : (r: Result<MenuOutcome<S>, Error>)
    ensures item.OtherItem? ==> r == Success(Delegated)
    ensures !item.OtherItem? ==> (r.Failure? <==> p.instance.None?)
    ensures r.Failure? ==> r.error == IllegalState(CalendarRepository.MustBeInitialized)
    ensures !item.OtherItem? && r.Success? ==>
              var e := NewEventAt(blank, date);
              && r.value.Handled?
              && r.value.effects == [Queued(CalendarRepository.Add(e)), EventSelected(e)]
              && r.value.process.instance.Some?
              && r.value.process.instance.value.database == p.instance.value.database
              && r.value.process.instance.value.executor == p.instance.value.executor + [CalendarRepository.Add(e)]
  {
    match item
    case OtherItem(_) => Success(Delegated)
    case _ =>
      var e := NewEventAt(blank, date);
      match CalendarRepository.Submit(p, CalendarRepository.Add(e))
      case Failure(err) => Failure(err)
      case Success(p') => Success(Handled(p', [Queued(CalendarRepository.Add(e)), EventSelected(e)]))
  }

  /** The "new assignment" item does exactly what the "new event" item does. */
  lemma NewAssignmentIsNewEvent<S>(p: CalendarRepository.Process<S>, date: Date, blank: Event)
    ensures OnOptionsItemSelected(p, date, blank, NewAssignmentItem) == OnOptionsItemSelected(p, date, blank, NewEventItem)
  {
  }

  /** `SwipeToDelete.onSwiped`: removal of the event shown at the swiped
      position. `CalendarRepository.get()` is evaluated before `events.get`,
      so a missing instance is reported ahead of a bad position; a position
      outside the list (the adapter's -1 for "no position" included) throws
      `IndexOutOfBoundsException` with nothing queued. */
  function OnSwiped<S>(p: CalendarRepository.Process<S>, events: seq<Event>, position: int)
    : (r: Result<CalendarRepository.Process<S>, Error>)
    ensures p.instance.None? ==> r == Failure(IllegalState(CalendarRepository.MustBeInitialized))
    ensures p.instance.Some? && !(0 <= position < |events|) ==> r == Failure(IndexOutOfBounds(position))
    ensures r.Success? <==> p.instance.Some? && 0 <= position < |events|
    ensures r.Success? ==> r.value.instance.Some?
    ensures r.Success? ==> r.value.instance.value.database == p.instance.value.database
    ensures r.Success? ==> r.value.instance.value.executor == p.instance.value.executor + [CalendarRepository.Remove(events[position])]
  {
    match CalendarRepository.Get(p)
    case Failure(err) => Failure(err)
    case Success(_) =>
      if 0 <= position < |events| then CalendarRepository.Submit(p, CalendarRepository.Remove(events[position]))
      else Failure(IndexOutOfBounds(position))
  }

  /** Once the executor has run, a swipe has had exactly the DAO's removal of
      the swiped event on top of whatever was already pending. */
  lemma SwipeRemovesSwipedEvent<S>(dao: CalendarRepository.Dao<S>, p: CalendarRepository.Process<S>, events: seq<Event>, position: int)
    requires p.instance.Some? && 0 <= position < |events|
    ensures OnSwiped(p, events, position).Success?
    ensures CalendarRepository.Settled(dao, OnSwiped(p, events, position).value.instance.value)
            == dao(CalendarRepository.Settled(dao, p.instance.value), CalendarRepository.Remove(events[position]))
  {
    var repo := p.instance.value;
    CalendarRepository.ApplyAppend(dao, repo.database, repo.executor, [CalendarRepository.Remove(events[position])]);
  }
}
