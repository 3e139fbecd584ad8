/**
 * The cases `test_app.py` exercises, and the edge cases of the deadlines
 * grammar, stated over the model.
 */
module Scenarios {
  import opened Optional
  import opened Text
  import opened Dates
  import opened Deadlines
  import opened Generator
  import opened HistoryStore
  import opened Handler

  /** The deadlines fields `test_app.py` submits. */
  const ThreeDeadlines := "2025-05-01, 2025-05-15, 2025-06-01"
  const TwoDeadlines := "2025-05-01, 2025-05-15"

  /** Leap days exist in years divisible by 4, except centuries not divisible by 400. */
  lemma LeapDaysAccepted()
    ensures ParseDate("2024-02-29") == Some(Date(2024, 2, 29))
    ensures ParseDate("2000-02-29") == Some(Date(2000, 2, 29))
  {
    assert "2024-02-29"[..4] == "2024" && "2024-02-29"[5..7] == "02" && "2024-02-29"[8..] == "29";
    assert "2000-02-29"[..4] == "2000" && "2000-02-29"[5..7] == "02" && "2000-02-29"[8..] == "29";
  }

  lemma LeapDaysRejected()
    ensures ParseDate("2025-02-29") == None
    ensures ParseDate("1900-02-29") == None
  {
    assert "2025-02-29"[..4] == "2025" && "2025-02-29"[5..7] == "02" && "2025-02-29"[8..] == "29";
    assert "1900-02-29"[..4] == "1900" && "1900-02-29"[5..7] == "02" && "1900-02-29"[8..] == "29";
  }

  /** Days past the end of the month are rejected. */
  lemma MonthEndsRejected()
    ensures ParseDate("2025-02-30") == None
    ensures ParseDate("2025-04-31") == None
  {
    assert "2025-02-30"[..4] == "2025" && "2025-02-30"[5..7] == "02" && "2025-02-30"[8..] == "30";
    assert "2025-04-31"[..4] == "2025" && "2025-04-31"[5..7] == "04" && "2025-04-31"[8..] == "31";
  }

  /** Month 13 does not match the pattern; year 0 matches it but is out of range. */
  lemma OutOfRangeFieldsRejected()
    ensures ParseDate("2025-13-01") == None
    ensures ParseDate("0000-01-01") == None
  {
    assert "0000-01-01"[..4] == "0000" && "0000-01-01"[5..7] == "01" && "0000-01-01"[8..] == "01";
  }

  lemma TestDatesFormatted()
    ensures FormatDate(Date(2025, 5, 1)) == "2025-05-01"
    ensures FormatDate(Date(2025, 5, 15)) == "2025-05-15"
    ensures FormatDate(Date(2025, 6, 1)) == "2025-06-01"
  {
    assert Pad4(2025) == "2025";
    assert Pad2(1) == "01" && Pad2(5) == "05" && Pad2(6) == "06" && Pad2(15) == "15";
  }

  /*
   * The lemmas below take their example strings as parameters fixed by a
   * `requires`, which keeps the verifier from unfolding every function on the
   * literal text.
   */

  lemma OneDigitFieldsParsed(s: string)
    requires s == "2025-5-1"
    ensures ParseDate(s) == Some(Date(2025, 5, 1))
  {
    assert s[..4] == "2025" && s[5..6] == "5" && s[7..] == "1";
  }

  /** One-digit months and days are accepted and written back zero-padded. */
  lemma OneDigitFieldsCanonicalized(s: string)
    requires s == "2025-5-1"
    ensures Canonicalize(s) == Some("2025-05-01")
  {
    OneDigitFieldsParsed(s);
    TestDatesFormatted();
    SingleDeadline(s);
  }

  lemma BlankDayParsed(s: string)
    requires s == "2025-05- 1"
    ensures ParseDate(s) == Some(Date(2025, 5, 1))
  {
    assert s[..4] == "2025" && s[5..7] == "05" && s[8..] == " 1";
  }

  /** So is a blank before a one-digit day, which `%d` also admits. */
  lemma BlankDayCanonicalized(s: string)
    requires s == "2025-05- 1"
    ensures Canonicalize(s) == Some("2025-05-01")
  {
    BlankDayParsed(s);
    TestDatesFormatted();
    SingleDeadline(s);
  }

  /** `test_incorrect_data_format`: a word is no date, its fifth character is not `-`. */
  lemma WordRejected(s: string)
    requires s == "invalid-date-format"
    ensures Canonicalize(s) == None
  {
    assert s[4] == 'l';
    SingleDeadline(s);
  }

  lemma ThreeDeadlinesJoined(fs: seq<string>)
    requires fs == ["2025-05-01", "2025-05-15", "2025-06-01"]
    ensures Join(fs, ", ") == ThreeDeadlines
  {
    assert fs[1..][1..] == ["2025-06-01"];
    assert Join(fs[1..], ", ") == "2025-05-15" + ", " + "2025-06-01";
    assert Join(fs, ", ") == "2025-05-01" + ", " + "2025-05-15" + ", " + "2025-06-01";
  }

  lemma TwoDeadlinesJoined(fs: seq<string>)
    requires fs == ["2025-05-01", "2025-05-15"]
    ensures Join(fs, ", ") == TwoDeadlines
  {
    assert fs[1..] == ["2025-05-15"];
    assert Join(fs, ", ") == "2025-05-01" + ", " + "2025-05-15";
  }

  lemma ThreeDeadlinesFormatted(ds: seq<Date>)
    requires ds == [Date(2025, 5, 1), Date(2025, 5, 15), Date(2025, 6, 1)]
    ensures FormatDeadlines(ds) == ThreeDeadlines
  {
    TestDatesFormatted();
    ThreeDeadlinesJoined(FormatAll(ds));
  }

  lemma TwoDeadlinesFormatted(ds: seq<Date>)
    requires ds == [Date(2025, 5, 1), Date(2025, 5, 15)]
    ensures FormatDeadlines(ds) == TwoDeadlines
  {
    TestDatesFormatted();
    TwoDeadlinesJoined(FormatAll(ds));
  }

  /** The three deadlines of `test_generate_study_plan` are canonical, so they are stored unchanged. */
  lemma ThreeDeadlinesCanonical(ds: seq<Date>, s: string)
    requires ds == [Date(2025, 5, 1), Date(2025, 5, 15), Date(2025, 6, 1)]
    requires s == ThreeDeadlines
    ensures Canonicalize(s) == Some(s)
  {
    ThreeDeadlinesFormatted(ds);
    FormatParseDeadlines(ds);
  }

  /** The two deadlines of `test_empty_ai_response` are canonical. */
  lemma TwoDeadlinesCanonical(ds: seq<Date>, s: string)
    requires ds == [Date(2025, 5, 1), Date(2025, 5, 15)]
    requires s == TwoDeadlines
    ensures Canonicalize(s) == Some(s)
  {
    TwoDeadlinesFormatted(ds);
    FormatParseDeadlines(ds);
  }

  /** `test_empty_input`: all fields empty gives the missing-fields banner, whatever the generator. */
  lemma EmptyInputRefused(generated: Generation)
    ensures Decide(Post("", "", ""), generated) == Refuse(MissingFields)
  {
  }

  /** `test_incorrect_data_format`: a token that is not a date gives the format banner. */
  lemma IncorrectDateFormatRefused(req: Request, generated: Generation)
    requires req == Post("Math, Physics", "invalid-date-format", "5")
    ensures Decide(req, generated) == Refuse(BadDeadlines)
  {
    WordRejected(req.deadlines);
  }

  /** A filled-in submission with canonical deadlines and a non-empty plan is saved as submitted. */
  lemma CanonicalSubmissionSaved(req: Request, plan: string)
    requires req.Post? && Filled(req) && Canonicalize(req.deadlines) == Some(req.deadlines)
    requires plan != []
    ensures Decide(req, Returned(Some(plan))) == Save(req.syllabus, req.deadlines, req.availableTime, plan)
  {
  }

  /** The same submission with an empty plan is refused. */
  lemma CanonicalSubmissionEmptyPlan(req: Request)
    requires req.Post? && Filled(req) && Canonicalize(req.deadlines) == Some(req.deadlines)
    ensures Decide(req, Returned(Some(""))) == Refuse(EmptyPlan)
  {
  }

  /** `test_generate_study_plan`: a non-empty plan is saved with the deadlines unchanged. */
  lemma ValidSubmissionSaved(req: Request, plan: string)
    requires req == Post("Math, Physics, Chemistry", ThreeDeadlines, "5")
    requires plan != []
    ensures Decide(req, Returned(Some(plan))) == Save("Math, Physics, Chemistry", ThreeDeadlines, "5", plan)
  {
    ThreeDeadlinesCanonical([Date(2025, 5, 1), Date(2025, 5, 15), Date(2025, 6, 1)], req.deadlines);
    CanonicalSubmissionSaved(req, plan);
  }

  /** `test_empty_ai_response`: the generator returning `""` gives the empty-plan banner. */
  lemma EmptyPlanRefused(req: Request)
    requires req == Post("Math, Physics", TwoDeadlines, "5")
    ensures Decide(req, Returned(Some(""))) == Refuse(EmptyPlan)
  {
    TwoDeadlinesCanonical([Date(2025, 5, 1), Date(2025, 5, 15)], req.deadlines);
    CanonicalSubmissionEmptyPlan(req);
  }

  /**
   * A validated submission whose first reply choice has no text, or only
   * white space, never reaches the store, whatever the Markdown converter does.
   */
  lemma BlankReplyRefused(req: Request, content: Option<string>, more: seq<Message>, markdown: string -> string)
    requires Validated(req)
    requires content.None? || AllSpace(content.value)
    ensures Decide(req, GenerateStudyPlan(Answered([Message(content)] + more), markdown)) == Refuse(EmptyPlan)
  {
  }

  /**
   * `test_history_section` and `test_generate_study_plan` against one store:
   * a seeded row, then a saved submission, both listed on the next fetch.
   * The rows come in the opposite order to the test module's, so the ids are
   * swapped.
   */
  method SubmitThenFetch(plan: string, seeded: Timestamp, now: Timestamp) returns (listing: seq<Entry>)
    requires plan != []
    ensures |listing| == 2 && NewestFirst(listing)
    ensures Entry(1, "Biology, Chemistry", "2025-06-15, 2025-07-01", "4",
                  "Study plan generated for Biology and Chemistry", seeded) in listing
    ensures Entry(2, "Math, Physics, Chemistry", ThreeDeadlines, "5", plan, now) in listing
  {
    var store := new History();
    var seedId := store.Append("Biology, Chemistry", "2025-06-15, 2025-07-01", "4",
                               "Study plan generated for Biology and Chemistry", seeded);
    var req := Post("Math, Physics, Chemistry", ThreeDeadlines, "5");
    ValidSubmissionSaved(req, plan);
    var resp := Index(store, req, Returned(Some(plan)), now);
    assert resp.Rendered? && resp.page.plan == Some(plan);
    var page := Index(store, Get, Raised, now);
    listing := page.page.history.value;
    assert store.entries[0] in multiset(listing);
    assert store.entries[1] in multiset(listing);
  }
}
