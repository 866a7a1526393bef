/** The workout endpoint (pages/api/workout.js): validates a posted workout,
    fills in defaults and forwards it to the training calendar. The call to
    the platform is an input: its outcome is passed in. */
module WorkoutApi {
  import opened Js

  /** The fields read from the request body. */
  datatype Body = Body(date: Text, name: Text, description: Text, kind: Text, duration: Num, tss: Num)

  /** The event sent to the platform. `movingTime` is in seconds. */
  datatype Workout = Workout(startDateLocal: string, name: string, description: string, kind: string,
                             movingTime: real, icuTrainingLoad: real)

  /** What `postWorkout` did: returned the created event or threw. */
  datatype PostOutcome<Event> = Posted(event: Event) | Threw(message: string)

  datatype Response<Event> =
    | MethodNotAllowed                 // 405, empty body
    | BadRequest(error: string)        // 400
    | Created(event: Event)            // 200 { success: true, event }
    | ServerError(error: string)       // 500

  /** `s || fallback` for a text field. */
  function TextOr(s: Text, fallback: string): (r: string)
    ensures TruthyText(s) ==> r == s.value
    ensures !TruthyText(s) ==> r == fallback
  {
    if TruthyText(s) then s.value else fallback
  }

  /** `x || fallback` for a number field. */
  function NumOr(x: Num, fallback: real): (r: real)
    ensures Truthy(x) ==> r == x.value
    ensures !Truthy(x) ==> r == fallback
  {
    if Truthy(x) then x.value else fallback
  }

  /** The workout built from a valid body. */
  function WorkoutOf(b: Body): Workout
    requires TruthyText(b.date) && TruthyText(b.name)
  {
    Workout(b.date.value + "T07:00:00", b.name.value, TextOr(b.description, ""), TextOr(b.kind, "Ride"),
            NumOr(b.duration, 3600.0), NumOr(b.tss, 0.0))
  }

  /** The workout the handler posts, if it gets that far. */
  function Sent(verb: string, b: Body): (w: Option<Workout>)
    ensures w.Some? <==> verb == "POST" && TruthyText(b.date) && TruthyText(b.name)
  {
    if verb == "POST" && TruthyText(b.date) && TruthyText(b.name) then Some(WorkoutOf(b)) else None
  }

  /** The handler's response. */
  function Handle<Event>(verb: string, b: Body, outcome: PostOutcome<Event>): (r: Response<Event>)
    ensures verb != "POST" ==> r == MethodNotAllowed
    ensures verb == "POST" && (!TruthyText(b.date) || !TruthyText(b.name)) ==> r == BadRequest("date and name required")
    ensures Sent(verb, b).Some? && outcome.Posted? ==> r == Created(outcome.event)
    ensures Sent(verb, b).Some? && outcome.Threw? ==> r == ServerError(outcome.message)
  {
    if verb != "POST" then MethodNotAllowed
    else if !TruthyText(b.date) || !TruthyText(b.name) then BadRequest("date and name required")
    else match outcome
      case Posted(event) => Created(event)
      case Threw(message) => ServerError(message)
  }

  /** The platform is called only for a POST with a date and a name, and the
      created event is answered only when it was called. */
  lemma PostedOnlyWhenValid<Event>(verb: string, b: Body, outcome: PostOutcome<Event>)
    ensures Handle(verb, b, outcome).Created? ==> Sent(verb, b).Some? && outcome.Posted?
    ensures Handle(verb, b, outcome).Created? || Handle(verb, b, outcome).ServerError? <==> Sent(verb, b).Some?
  {
  }

  /** The event starts at 07:00 local time on the requested date. */
  lemma StartsAtSeven(b: Body)
    requires TruthyText(b.date) && TruthyText(b.name)
    ensures var s := WorkoutOf(b).startDateLocal;
            |s| == |b.date.value| + 9 && s[..|b.date.value|] == b.date.value && s[|b.date.value|..] == "T07:00:00"
  {
  }

  /** Missing, empty or zero fields get the defaults: no description, a
      ride, an hour, no load. A zero duration also becomes an hour. */
  lemma Defaults(date: string, name: string)
    requires date != "" && name != ""
    ensures var w := WorkoutOf(Body(Some(date), Some(name), None, None, None, None));
            w.description == "" && w.kind == "Ride" && w.movingTime == 3600.0 && w.icuTrainingLoad == 0.0
    ensures WorkoutOf(Body(Some(date), Some(name), None, None, Some(0.0), None)).movingTime == 3600.0
  {
  }
}
