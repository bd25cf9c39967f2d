# MoCalendar core, modelled in Dafny

MoCalendar is an Android calendar app. This project models the part of it that
carries logic once the Android framework is removed:

- **Event edit transitions** (`EventFragment`). Picking a time, a date or a
  type, or typing into the name or description box, changes the fragment's
  `Event` record. Leaving the screen hands the record to the repository.
- **The repository** (`CalendarRepository`). It is a process-wide single
  instance: `get` fails before `initialize`, and a repeated `initialize` does
  nothing. Reads go straight to the DAO. Writes (`addEvent`, `removeEvent`,
  `updateEvent`) go onto a single-thread executor, modelled as a FIFO queue of
  commands that runs one command at a time.
- **The Room type converter** (`CalendarTypeConverter`). It maps a nullable
  `Date` to a nullable `Long` and back.
- **The list screen's writes** (`ListFragment`). The menu builds a new event at
  the list's date, ending one hour later. The swipe callback
  `SwipeToDelete.onSwiped` queues removal of the event at the swiped row. The
  source never constructs `SwipeToDelete` nor attaches it to the list view
  (`onCreateView`, ListFragment.java lines 117-128), so no swipe reaches it;
  the model describes `onSwiped` as written.

Files:

- `wrappers.dfy` holds `Option` (a Java reference that may be `null`) and
  `Result` (a call that returns or throws).
- `calendar.dfy` holds Java's `long` as a newtype with explicit wrap-around,
  `Date`, `Event` and the exceptions.
- `type_converter.dfy`, `repository.dfy`, `event_fragment.dfy` and
  `list_fragment.dfy` each follow one source file.

Collaborators that are not part of this model are parameters, and nothing is
assumed about their results (see "## Left out" for what treating events and
dates as values assumes):

- The `DateUtils` helpers `combineDateAndTime`, `getNewEndTime` and
  `fixEndTime` are fields of a `DateUtils` value passed to every transition.
- `CalendarDao` appears as two parameters: a store type `S`, and a function
  `dao: (S, Command) -> S` giving one write's effect.
- `new Event()` is a `blank` event passed in.
- Room's database builder is the initial store passed to `Initialize`.

Behaviour of the code worth noting:

- Choosing a type does not re-derive the end time, even when switching back
  from an assignment.
- "New assignment" builds the same record as "new event": it sets no type, and
  its end is one hour after its start.
- A date pick sets the start to the picked date as delivered, and, for
  non-assignments, sets the end to the same value. The fragment itself does
  nothing to keep the time of day.
- The fragment never checks that the end is at or after the start. Any such
  guarantee would have to come from `DateUtils`, which is not part of this
  model. Adding one hour to a start within an hour of the largest `long` wraps
  around (`NewEventOneHourLong`).

## Model

| member | source | states |
|---|---|---|
| `TypeConverter.FromDate` | app/src/main/java/edu/moravian/csci299/mocalendar/CalendarTypeConverter.java:9-12 | null maps to null and only null does; a date maps to exactly its millisecond count |
| `TypeConverter.ToDate` | app/src/main/java/edu/moravian/csci299/mocalendar/CalendarTypeConverter.java:15-18 | null maps to null and only null does; a count maps to the date at that count |
| `TypeConverter.DateRoundTrip` | app/src/main/java/edu/moravian/csci299/mocalendar/CalendarTypeConverter.java:9-18 | storing a nullable date and reading it back returns the same value |
| `TypeConverter.MillisRoundTrip` | app/src/main/java/edu/moravian/csci299/mocalendar/CalendarTypeConverter.java:9-18 | reading a nullable count and storing it again returns the same value |
| `TypeConverter.ConvertersInjective` | app/src/main/java/edu/moravian/csci299/mocalendar/CalendarTypeConverter.java:9-18 | neither converter maps two different inputs to the same output |
| `CalendarRepository.Get` | app/src/main/java/edu/moravian/csci299/mocalendar/CalendarRepository.java:64-69 | fails with IllegalStateException("CalendarRepository must be initialized") exactly when there is no instance; otherwise returns the stored instance |
| `CalendarRepository.Initialize` | app/src/main/java/edu/moravian/csci299/mocalendar/CalendarRepository.java:71-75 | afterwards an instance exists; an existing one leaves the process unchanged; otherwise the new instance is built from the given context with an empty queue |
| `CalendarRepository.InitializeIdempotent` | app/src/main/java/edu/moravian/csci299/mocalendar/CalendarRepository.java:71-75 | a second `initialize` is a no-op |
| `CalendarRepository.InitializeAllKeeps` | app/src/main/java/edu/moravian/csci299/mocalendar/CalendarRepository.java:71-75 | once an instance exists, no run of `initialize` calls changes anything |
| `CalendarRepository.FirstInitializeWins` | app/src/main/java/edu/moravian/csci299/mocalendar/CalendarRepository.java:62-75 | after any non-empty run of `initialize` calls, `get` returns the instance the first call built |
| `CalendarRepository.GetKeepsInstance` | app/src/main/java/edu/moravian/csci299/mocalendar/CalendarRepository.java:43-75 | once an instance exists, whatever `initialize` calls and writes follow, `get` returns that same instance (same context, same store) with exactly the issued writes appended to its queue in order |
| `CalendarRepository.Perform` | app/src/main/java/edu/moravian/csci299/mocalendar/CalendarRepository.java:27-59 | a read returns the DAO query with the caller's arguments and leaves the repository unchanged; a write appends exactly one command carrying the caller's event and applies nothing to the store |
| `CalendarRepository.PerformAllQueuesWrites` | app/src/main/java/edu/moravian/csci299/mocalendar/CalendarRepository.java:27-59 | any run of calls changes only the queue, which grows by exactly the writes among them, in call order |
| `CalendarRepository.Submit` | app/src/main/java/edu/moravian/csci299/mocalendar/CalendarRepository.java:43-69 | `get()` followed by a write fails with no effect when there is no instance; otherwise the same instance (same context, same store) gets the command at the back of its queue |
| `CalendarRepository.RunNext` | app/src/main/java/edu/moravian/csci299/mocalendar/CalendarRepository.java:17 | the executor applies the oldest pending command to the store and removes it from the queue; with nothing pending it idles |
| `CalendarRepository.RunNextKeepsSettled` | app/src/main/java/edu/moravian/csci299/mocalendar/CalendarRepository.java:17 | one executor step leaves unchanged the store the queue will reach once drained |
| `CalendarRepository.ApplyAppend` | app/src/main/java/edu/moravian/csci299/mocalendar/CalendarRepository.java:43-59 | applying a queue extended at the back is applying the old queue and then the new commands |
| `CalendarRepository.RunManyMovesPrefix` | app/src/main/java/edu/moravian/csci299/mocalendar/CalendarRepository.java:17 | after n executor steps, the first n commands are applied in order and the rest remain queued in order |
| `CalendarRepository.ExecutorRunsToDrain` | app/src/main/java/edu/moravian/csci299/mocalendar/CalendarRepository.java:17 | running the executor once per pending command equals folding the queue over the store in FIFO order |
| `CalendarRepository.InterleavingIsCallOrder` | app/src/main/java/edu/moravian/csci299/mocalendar/CalendarRepository.java:17-59 | however executor steps interleave with calls, the drained store has every write applied once, in call order |
| `EventFragment.OnTimeChanged` | app/src/main/java/edu/moravian/csci299/mocalendar/EventFragment.java:193-206 | an assignment's start becomes combineDateAndTime(old start, pick) and its end is kept; otherwise a start pick also sets end to getNewEndTime(original start, new start, old end); an end pick sets end to fixEndTime(start, pick) and keeps the start; id, name, description and type never change |
| `EventFragment.AssignmentIgnoresTimeFlag` | app/src/main/java/edu/moravian/csci299/mocalendar/EventFragment.java:193-206 | for an assignment, start and end pickers give the same result |
| `EventFragment.OnDateSelected` | app/src/main/java/edu/moravian/csci299/mocalendar/EventFragment.java:209-215 | start becomes the picked date; a non-assignment ends where it starts; an assignment keeps its end; other fields unchanged |
| `EventFragment.OnTypeSelected` | app/src/main/java/edu/moravian/csci299/mocalendar/EventFragment.java:218-221 | only the type changes, to the picked one |
| `EventFragment.AfterTextChanged` | app/src/main/java/edu/moravian/csci299/mocalendar/EventFragment.java:173-176 | name and description both come from their text boxes; nothing else changes |
| `EventFragment.EditStaysInFootprint` | app/src/main/java/edu/moravian/csci299/mocalendar/EventFragment.java:173-221 | every handler leaves unchanged each field outside its footprint, which is stated separately for each handler and event type |
| `EventFragment.IdNotWritten` | app/src/main/java/edu/moravian/csci299/mocalendar/EventFragment.java:173-221 | no run of actions may write the id: the id is outside every handler's write set |
| `EventFragment.MayWrite` | app/src/main/java/edu/moravian/csci299/mocalendar/EventFragment.java:173-221 | an action's type-independent write set covers its footprint for every event type |
| `EventFragment.EditsFrame` | app/src/main/java/edu/moravian/csci299/mocalendar/EventFragment.java:173-221 | after any run of actions, a field that none of them may write keeps its value |
| `EventFragment.EditsKeepId` | app/src/main/java/edu/moravian/csci299/mocalendar/EventFragment.java:173-221 | no run of actions changes the id (derived from the frame lemma) |
| `EventFragment.OnStop` | app/src/main/java/edu/moravian/csci299/mocalendar/EventFragment.java:118-121 | fails exactly when there is no instance; otherwise queues exactly one update carrying the current record |
| `EventFragment.EditSessionQueuesOneUpdate` | app/src/main/java/edu/moravian/csci299/mocalendar/EventFragment.java:118-121 | an editing session writes nothing until it stops; stopping then queues one update of the edited record, which keeps the original id, and the store is untouched |
| `Calendar.WrapLong` | app/src/main/java/edu/moravian/csci299/mocalendar/ListFragment.java:166 | Java `long` addition: the result equals the exact sum modulo 2^64, and equals it outright when the sum is in range |
| `ListFragment.NewEventAt` | app/src/main/java/edu/moravian/csci299/mocalendar/ListFragment.java:164-166 | a new event keeps what `new Event()` gives it; its start is the list's date; its end is start + 3,600,000 modulo 2^64 |
| `ListFragment.NewEventOneHourLong` | app/src/main/java/edu/moravian/csci299/mocalendar/ListFragment.java:166 | the end is exactly start + 3,600,000 when that fits in a `long`; otherwise it wraps to before the start |
| `ListFragment.OnOptionsItemSelected` | app/src/main/java/edu/moravian/csci299/mocalendar/ListFragment.java:161-183 | other items are delegated with no effect; the new-event items fail exactly when there is no instance; otherwise they queue `addEvent(e)` and then select the same `e`, and the store is untouched |
| `ListFragment.NewAssignmentIsNewEvent` | app/src/main/java/edu/moravian/csci299/mocalendar/ListFragment.java:163-178 | "new assignment" behaves exactly like "new event" |
| `ListFragment.OnSwiped` | app/src/main/java/edu/moravian/csci299/mocalendar/ListFragment.java:287-291 | with no instance it fails with IllegalStateException; with a position outside the list it fails with IndexOutOfBoundsException; otherwise it queues removal of exactly the event at that position |
| `ListFragment.SwipeRemovesSwipedEvent` | app/src/main/java/edu/moravian/csci299/mocalendar/ListFragment.java:287-290 | once drained, a swipe has had exactly the DAO's removal of the swiped event on top of the writes already pending |

## Left out

- `DateUtils` (`combineDateAndTime`, `getNewEndTime`, `fixEndTime`, `getTime`) is not part of this model. Its helpers are uninterpreted parameters, so no end-after-start guarantee is stated.
- `CalendarDao` is not part of this model. No store semantics are assumed: not for insert, update or delete, nor for the by-id, by-day and range queries (`getEventsOnDay`, `getEventsBetween`). A read is modelled only as the query handed to the DAO.
- `Event` and `EventType` are not part of this model:
  - The event's fields are inferred from their uses.
  - Every enum constant other than `ASSIGNMENT` is an opaque `Other(name)`.
  - The start and end times are treated as never `null`.
- Threading: the single-thread executor is a sequential FIFO queue, and concurrency is not verified.
- LiveData and Room plumbing are not modelled: `observe` callbacks, re-delivery to subscribers, and `Room.databaseBuilder`.
- UI rendering and view wiring are not modelled: `onCreateView`, `updateUI`, adapters, view holders, menus, the picker dialogs, and the pixel arithmetic in `SwipeToDelete.onChildDraw`.
- An edit handler firing before the fragment's event has loaded is not modelled. It would dereference a `null` event and throw.
- `OnStop`: a stop before the event loads queues `updateEvent(null)` (EventFragment.java line 120 never dereferences `event`); this is not modelled, and the failure would surface later on the executor thread.
- A DAO write that throws on the executor thread is not modelled: `dao` is a total function.
- Events and dates are values, not shared mutable objects:
  - A queued command snapshots the event. In the source, the queued task holds the fragment's live `event` object, so edits made after a stop but before the executor runs are written too.
  - `onDateSelected` makes the start and end the same `Date` object, and `originalStart` aliases the old start. The model is faithful only if the `DateUtils` helpers do not mutate their arguments, which is assumed.
- A menu item chosen while `callbacks` is `null` (the fragment is detached) is not modelled. In that state the host cannot deliver menu events.
- `MainActivity`, `TimePickerFragment` and `CalendarDataBase` hold no logic beyond the framework. They are not modelled.
