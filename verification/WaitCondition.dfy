/** What `Wait` waits for, and how a session is judged against it. */
module WaitCondition {
  import opened Options
  import Text

  datatype Liveness =
    | Live(activity: string, decision: Option<string>)
    | Unknown(activity: string, decision: Option<string>)
    | Gone(at: int, reason: string, decision: Option<string>)
    | Unset

  datatype ProcessIdentity = ProcessIdentity(pid: int, start: string)

  /** `rest` stands for every field that waiting neither reads nor changes. */
  datatype Session = Session(
    id: string,
    liveness: Liveness,
    process: Option<ProcessIdentity>,
    presenceChangedAt: int,
    rest: string)
  {
    function Presence(): string {
      match liveness
      case Live(_, _) => PRESENCE_LIVE
      case Gone(_, _, _) => PRESENCE_GONE
      case _ => PRESENCE_UNKNOWN
    }

    function Activity(): Option<string> {
      match liveness
      case Live(a, _) => Some(a)
      case Unknown(a, _) => Some(a)
      case Gone(_, _, _) => None
      case Unset => Some(ACTIVITY_UNKNOWN)
    }

    function Decision(): Option<string> {
      if liveness.Unset? then None else liveness.decision
    }
  }

  const PRESENCE_LIVE := "live"
  const PRESENCE_GONE := "gone"
  const PRESENCE_UNKNOWN := "unknown"
  const ACTIVITY_UNKNOWN := "unknown"
  const ACTIVITIES := {"running", "waiting", "idle", "failed", "interrupted", ACTIVITY_UNKNOWN}
  const REMOVED := "session_removed"

  /** Durations in any one unit; an empty string asks for nothing. */
  datatype WaitOptions = WaitOptions(id: string, activity: string, presence: string, timeout: int, stableFor: int)

  datatype Problem =
    | SessionRequired | InvalidDuration | ConditionRequired | UnknownPresence | UnknownActivity | Contradictory
    | NotFound | Disappeared | UnknownState | StreamClosed | StreamBroken(reason: string) | Canceled

  /** `WaitOptions.Validate` */
  function Validate(o: WaitOptions): Option<Problem> {
    if Text.TrimSpace(o.id) == "" then Some(SessionRequired)
    else if o.timeout < 0 || o.stableFor < 0 || (o.timeout > 0 && o.stableFor >= o.timeout) then Some(InvalidDuration)
    else if o.activity == "" && o.presence == "" then Some(ConditionRequired)
    else if o.presence != "" && o.presence !in {PRESENCE_LIVE, PRESENCE_GONE, PRESENCE_UNKNOWN} then Some(UnknownPresence)
    else if o.activity != "" && o.activity !in ACTIVITIES then Some(UnknownActivity)
    else if o.presence in {PRESENCE_GONE, PRESENCE_UNKNOWN} && o.activity != "" then Some(Contradictory)
    else None
  }

  /** `evaluateCondition` */
  function Evaluate(s: Session, o: WaitOptions): Result<bool, Problem> {
    if o.presence == PRESENCE_GONE then Ok(s.Presence() == PRESENCE_GONE)
    else if s.Presence() == PRESENCE_GONE then Err(Disappeared)
    else if s.Presence() == PRESENCE_UNKNOWN then
      if o.presence == PRESENCE_UNKNOWN then Ok(true) else Err(UnknownState)
    else if o.presence != "" && o.presence != PRESENCE_LIVE then Ok(false)
    else if o.activity != "" then Ok(s.Activity() == Some(o.activity))
    else Ok(true)
  }

  /** The condition as the options state it: asking for no presence means asking for a live session. */
  predicate Satisfies(s: Session, o: WaitOptions) {
    && s.Presence() == (if o.presence == "" then PRESENCE_LIVE else o.presence)
    && (o.activity != "" ==> s.Activity() == Some(o.activity))
  }

  /**
   * For options that pass validation, judging a session case by case means just the
   * stated condition, and waiting is given up exactly on a session that can no longer
   * be trusted to meet it.
   */
  lemma EvaluateMeansSatisfies(s: Session, o: WaitOptions)
    requires Validate(o) == None
    ensures Evaluate(s, o) == Ok(true) <==> Satisfies(s, o)
    ensures Evaluate(s, o) == Err(Disappeared) <==> s.Presence() == PRESENCE_GONE != o.presence
    ensures Evaluate(s, o).Err? && Evaluate(s, o) != Err(Disappeared) <==>
            s.Presence() == PRESENCE_UNKNOWN && o.presence !in {PRESENCE_UNKNOWN, PRESENCE_GONE}
  {
  }

  lemma ProblemsMean(s: Session, o: WaitOptions)
    ensures Evaluate(s, o) == Err(Disappeared) ==> s.Presence() == PRESENCE_GONE != o.presence
    ensures Evaluate(s, o) == Err(UnknownState) ==>
              s.Presence() == PRESENCE_UNKNOWN && o.presence !in {PRESENCE_UNKNOWN, PRESENCE_GONE}
  {
  }

  /** Some session is judged against its stated condition. */
  ghost predicate Differ(o: WaitOptions) {
    exists s :: Evaluate(s, o) == Ok(true) && !Satisfies(s, o)
  }

  /** A session with the presence asked for and not the activity. */
  function Witness(o: WaitOptions): Session {
    Session(o.id, if o.presence == PRESENCE_GONE then Gone(0, "", None) else Unknown(o.activity + "x", None), None, 0, "")
  }

  /**
   * Case analysis and stated condition differ on exactly the options that ask for an
   * activity of a session gone or unknown, which validation refuses as contradictory:
   * no session that meets a stated condition is turned down under any options, and the
   * ones wrongly let through have the presence asked for and not the activity.
   */
  lemma WithoutValidationTheyDiffer(o: WaitOptions)
    ensures Differ(o) <==> o.presence in {PRESENCE_GONE, PRESENCE_UNKNOWN} && o.activity != ""
    ensures forall s :: Satisfies(s, o) ==> Evaluate(s, o) == Ok(true)
    ensures forall s :: Evaluate(s, o) == Ok(true) && !Satisfies(s, o) ==>
              s.Presence() == o.presence && s.Activity() != Some(o.activity)
  {
    if o.presence in {PRESENCE_GONE, PRESENCE_UNKNOWN} && o.activity != "" {
      var s := Witness(o);
      assert |o.activity + "x"| != |o.activity|;
      assert Evaluate(s, o) == Ok(true) && !Satisfies(s, o);
    }
  }

  /** `removedSession` */
  function Removed(s: Session, at: int): (r: Session)
    ensures r.Presence() == PRESENCE_GONE && r.process == s.process && r.id == s.id && r.Decision() == s.Decision()
  {
    if s.Presence() == PRESENCE_GONE then s
    else s.(liveness := Gone(at, REMOVED, s.Decision()), presenceChangedAt := at)
  }

  function Lookup(id: string, sessions: seq<Session>): Option<Session> {
    if sessions == [] then None
    else if sessions[0].id == id then Some(sessions[0])
    else Lookup(id, sessions[1..])
  }

  /** `currentSession`: a session missing from a snapshot counts as gone once it has been seen. */
  function Current(id: string, lastSeen: Option<Session>, sessions: seq<Session>, at: int): Option<Session> {
    match Lookup(id, sessions)
    case Some(s) => Some(s)
    case None => if lastSeen.None? then None else Some(Removed(lastSeen.value, at))
  }

  /** A session stays as it was when it was first found missing, however often it is missed. */
  lemma RemovalIsRememberedOnce(id: string, s: Session, absent: seq<Session>, at: int, absent': seq<Session>, later: int)
    requires Lookup(id, absent) == None && Lookup(id, absent') == None
    ensures Current(id, Current(id, Some(s), absent, at), absent', later) == Current(id, Some(s), absent, at)
  {
  }
}
