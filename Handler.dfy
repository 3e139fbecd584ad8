/**
 * The `index` view (lines 68-115): one request to `/`, decided in the order
 * the code checks things, ending in a rendered page or an unhandled error.
 */
module Handler {
  import opened Optional
  import opened Deadlines
  import opened Generator
  import opened HistoryStore

  const MissingFields := "Please fill in all fields"
  const BadDeadlines := "Error in deadlines format"
  const EmptyPlan := "Error: AI response was empty"

  /** A request to `/`: a fetch, or a form submission with its three text fields. */
  datatype Request = Get | Post(syllabus: string, deadlines: string, availableTime: string)

  /** Where one request ends. */
  datatype Outcome =
    | ShowHistory
    | Refuse(banner: string)
    | Save(syllabus: string, deadlines: string, availableTime: string, plan: string)
    | Crash

  /** The page `render_template` is given: the plan, the flashed banner and the history, each optional. */
  datatype Page = Page(plan: Option<string>, banner: Option<string>, history: Option<seq<Entry>>)

  /** A rendered page, or an exception that escaped the view (an HTTP 500). */
  datatype Response = Rendered(page: Page) | ServerError

  /** Line 77: Python's `not s` is true exactly for the empty string. */
  predicate Filled(req: Request)
    requires req.Post?
  {
    req.syllabus != [] && req.deadlines != [] && req.availableTime != []
  }

  /** Both checks before generation pass. */
  predicate Validated(req: Request) {
    req.Post? && Filled(req) && Canonicalize(req.deadlines).Some?
  }

  /**
   * The decision `index` takes for a request, given what the plan generator
   * yields for it (consulted only once both checks pass).
   */
  function Decide(req: Request, generated: Generation): (o: Outcome)
    ensures req.Get? <==> o == ShowHistory
    ensures req.Post? && !Filled(req) ==> o == Refuse(MissingFields)
    ensures req.Post? && Filled(req) && Canonicalize(req.deadlines).None? ==> o == Refuse(BadDeadlines)
    ensures o == Refuse(EmptyPlan) <==>
      Validated(req) && generated.Returned? && (generated.plan.None? || generated.plan.value == [])
    ensures o.Crash? <==> Validated(req) && generated.Raised?
    ensures o.Save? <==>
      Validated(req) && generated.Returned? && generated.plan.Some? && generated.plan.value != []
    ensures o.Refuse? ==> o.banner in {MissingFields, BadDeadlines, EmptyPlan}
    ensures o.Save? ==>
      && o.syllabus == req.syllabus && o.availableTime == req.availableTime
      && o.plan == generated.plan.value && o.plan != []
      && Canonicalize(req.deadlines) == Some(o.deadlines)
      && ParseDeadlines(o.deadlines) == ParseDeadlines(req.deadlines)
      && Canonicalize(o.deadlines) == Some(o.deadlines)
  {
    match req
    case Get => ShowHistory
    case Post(syllabus, deadlines, availableTime) =>
      if !Filled(req) then Refuse(MissingFields)
      else match Canonicalize(deadlines)
        case None => Refuse(BadDeadlines)
        case Some(canonical) =>
          match generated
          case Raised => Crash
          case Returned(plan) =>
            if plan.None? || plan.value == [] then Refuse(EmptyPlan)
            else
              CanonicalizeIdempotent(deadlines);
              Save(syllabus, canonical, availableTime, plan.value)
  }

  /** The rows after the request: one appended row on `Save`, the same rows otherwise. */
  function Effect(o: Outcome, entries: seq<Entry>, now: Timestamp): (r: seq<Entry>)
    requires IdsIncreasing(entries)
    ensures IdsIncreasing(r)
    ensures |r| == |entries| + (if o.Save? then 1 else 0)
    ensures r[..|entries|] == entries
    ensures o.Save? ==>
      r[|entries|] == Entry(NextId(entries), o.syllabus, o.deadlines, o.availableTime, o.plan, now)
  {
    if o.Save? then entries + [Entry(NextId(entries), o.syllabus, o.deadlines, o.availableTime, o.plan, now)]
    else entries
  }

  /**
   * The page for an outcome, given the rows after the request. The error
   * paths (lines 79, 90, 97) pass no history to the template, so it shows none.
   */
  function Respond(o: Outcome, entries: seq<Entry>): (resp: Response)
    ensures resp.ServerError? <==> o.Crash?
    ensures resp.Rendered? ==> (resp.page.plan.Some? <==> o.Save?)
    ensures resp.Rendered? ==> (resp.page.banner.Some? <==> o.Refuse?)
    ensures resp.Rendered? ==> (resp.page.history.None? <==> o.Refuse?)
    ensures o.Save? ==> resp.page.plan == Some(o.plan)
    ensures o.Refuse? ==> resp.page.banner == Some(o.banner)
    ensures resp.Rendered? && resp.page.history.Some? ==>
      NewestFirst(resp.page.history.value) && multiset(resp.page.history.value) == multiset(entries)
  {
    ByTimestampDescSorted(entries);
    match o
    case ShowHistory => Rendered(Page(None, None, Some(ByTimestampDesc(entries))))
    case Refuse(banner) => Rendered(Page(None, Some(banner), None))
    case Save(_, _, _, plan) => Rendered(Page(Some(plan), None, Some(ByTimestampDesc(entries))))
    case Crash => ServerError
  }

  /** The invariant every row written by `index` satisfies. */
  predicate WellFormed(e: Entry) {
    && e.syllabus != [] && e.availableTime != [] && e.studyPlan != []
    && Canonicalize(e.deadlines) == Some(e.deadlines)
  }

  /** Every row of `s` is well formed. */
  ghost predicate AllWellFormed(s: seq<Entry>) {
    forall i :: 0 <= i < |s| ==> WellFormed(s[i])
  }

  /** A request never breaks the row invariant. */
  lemma EffectKeepsWellFormed(req: Request, generated: Generation, entries: seq<Entry>, now: Timestamp)
    requires IdsIncreasing(entries)
    requires AllWellFormed(entries)
    ensures AllWellFormed(Effect(Decide(req, generated), entries, now))
  {
    var o := Decide(req, generated);
    var r := Effect(o, entries, now);
    forall i | 0 <= i < |r| ensures WellFormed(r[i]) {
      if i < |entries| {
        assert r[i] == r[..|entries|][i];
      }
    }
  }

  /**
   * Lines 69-115. `generated` is what `generate_study_plan` yields for this
   * request and `now` the time the row is written; neither is used on the
   * paths that do not reach them.
   */
  method Index(store: History, req: Request, generated: Generation, now: Timestamp) returns (resp: Response)
    requires store.Valid()
    modifies store
    ensures store.Valid()
    ensures store.entries == Effect(Decide(req, generated), old(store.entries), now)
    ensures resp == Respond(Decide(req, generated), store.entries)
    ensures !Decide(req, generated).Save? ==> store.entries == old(store.entries)
    ensures AllWellFormed(old(store.entries)) ==> AllWellFormed(store.entries)
  {
    if AllWellFormed(store.entries) {
      EffectKeepsWellFormed(req, generated, store.entries, now);
    }
    if req.Post? {
      if req.syllabus == [] || req.deadlines == [] || req.availableTime == [] {
        return Rendered(Page(None, Some(MissingFields), None));
      }
      var canonical := Canonicalize(req.deadlines);
      if canonical.None? {
        return Rendered(Page(None, Some(BadDeadlines), None));
      }
      var deadlines := canonical.value;
      if generated.Raised? {
        return ServerError;
      }
      var plan := generated.plan;
      if plan.None? || plan.value == [] {
        return Rendered(Page(None, Some(EmptyPlan), None));
      }
      var _ := store.Append(req.syllabus, deadlines, req.availableTime, plan.value, now);
      var history := store.ListAll();
      return Rendered(Page(Some(plan.value), None, Some(history)));
    }
    var history := store.ListAll();
    return Rendered(Page(None, None, Some(history)));
  }
}
