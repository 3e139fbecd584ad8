/**
 * The deadlines field of the form: split on `,`, each piece stripped and
 * parsed as a date; on success the dates are written back zero-padded and
 * joined with `", "`. This canonical string is what the history stores.
 */
module Deadlines {
  import opened Optional
  import opened Text
  import opened Dates

  /** The stripped, comma-separated pieces of the raw field. */
  function Tokens(s: string): (ts: seq<string>)
    ensures |ts| == |Split(s, ',')| >= 1
    ensures forall i :: 0 <= i < |ts| ==> ts[i] == Strip(Split(s, ',')[i])
  {
    StripAll(Split(s, ','))
  }

  function StripAll(parts: seq<string>): (ts: seq<string>)
    ensures |ts| == |parts|
    ensures forall i :: 0 <= i < |parts| ==> ts[i] == Strip(parts[i])
  {
    if parts == [] then [] else [Strip(parts[0])] + StripAll(parts[1..])
  }

  /** Parse every token; the first one that is not a date makes the whole list fail. */
  function ParseAll(ts: seq<string>): (r: Option<seq<Date>>)
    ensures r.Some? <==> forall i :: 0 <= i < |ts| ==> ParseDate(ts[i]).Some?
    ensures r.Some? ==> |r.value| == |ts|
    ensures r.Some? ==> forall i :: 0 <= i < |ts| ==> ParseDate(ts[i]) == Some(r.value[i])
  {
    if ts == [] then Some([])
    else match (ParseDate(ts[0]), ParseAll(ts[1..]))
      case (Some(d), Some(ds)) => Some([d] + ds)
      case _ => None
  }

  /** Line 84: the list of dates, or `None` where `strptime` raises `ValueError`. */
  function ParseDeadlines(s: string): (r: Option<seq<Date>>)
    ensures r.Some? <==> forall i :: 0 <= i < |Tokens(s)| ==> ParseDate(Tokens(s)[i]).Some?
    ensures r.Some? ==> |r.value| == |Split(s, ',')| >= 1
    ensures r.Some? ==> forall i :: 0 <= i < |r.value| ==> IsValid(r.value[i])
  {
    ParseAll(Tokens(s))
  }

  function FormatAll(ds: seq<Date>): (fs: seq<string>)
    requires forall i :: 0 <= i < |ds| ==> IsValid(ds[i])
    ensures |fs| == |ds|
    ensures forall i :: 0 <= i < |ds| ==> fs[i] == FormatDate(ds[i])
  {
    if ds == [] then [] else [FormatDate(ds[0])] + FormatAll(ds[1..])
  }

  /** Line 87: the dates in input order, zero-padded, joined with `", "`. */
  function FormatDeadlines(ds: seq<Date>): string
    requires forall i :: 0 <= i < |ds| ==> IsValid(ds[i])
  {
    Join(FormatAll(ds), ", ")
  }

  /** Lines 84-87 together: the canonical deadlines string, or `None` for a format error. */
  function Canonicalize(s: string): (r: Option<string>)
    ensures r.Some? <==> ParseDeadlines(s).Some?
  {
    match ParseDeadlines(s)
    case Some(ds) => Some(FormatDeadlines(ds))
    case None => None
  }

  /** The pieces `", "`-joined strings split into at `,`: every piece after the first starts with a blank. */
  function Blanked(fs: seq<string>): (ts: seq<string>)
    ensures |ts| == |fs|
    ensures |fs| > 0 ==> ts[0] == fs[0]
    ensures forall i :: 0 < i < |fs| ==> ts[i] == " " + fs[i]
  {
    if fs == [] then [] else [fs[0]] + seq(|fs| - 1, i requires 0 <= i < |fs| - 1 => " " + fs[i + 1])
  }

  lemma {:induction false} JoinCommaBlank(fs: seq<string>)
    requires |fs| >= 1
    ensures Join(fs, ", ") == Join(Blanked(fs), ",")
  {
    if |fs| > 1 {
      JoinCommaBlank(fs[1..]);
      var tail := Blanked(fs[1..]);
      var ts := Blanked(fs);
      assert ts[1..] == [" " + tail[0]] + tail[1..];
      if |fs| > 2 {
        assert Join(tail, ",") == tail[0] + "," + Join(tail[1..], ",");
        assert Join(ts[1..], ",") == " " + tail[0] + "," + Join(tail[1..], ",");
      }
    }
  }

  lemma FormattedPiece(d: Date)
    requires IsValid(d)
    ensures ',' !in FormatDate(d) && ',' !in " " + FormatDate(d)
    ensures Strip(FormatDate(d)) == FormatDate(d) && Strip(" " + FormatDate(d)) == FormatDate(d)
  {
    var f := FormatDate(d);
    assert forall k :: 0 <= k < |f| ==> f[k] != ',';
    assert NoEdgeSpace(f) by { assert IsDigit(f[0]) && IsDigit(f[9]); }
    StripPadded(" ", f, []);
    assert " " + f + [] == " " + f;
  }

  /** A canonical string splits at `,` into the formatted dates, all but the first after a blank. */
  lemma SplitCanonical(ds: seq<Date>)
    requires |ds| >= 1
    requires forall i :: 0 <= i < |ds| ==> IsValid(ds[i])
    ensures Split(FormatDeadlines(ds), ',') == Blanked(FormatAll(ds))
  {
    var fs := FormatAll(ds);
    var ts := Blanked(fs);
    JoinCommaBlank(fs);
    forall i | 0 <= i < |ts| ensures ',' !in ts[i] {
      FormattedPiece(ds[i]);
    }
    SplitJoin(ts, ',');
  }

  /** Stripping those pieces leaves the formatted dates. */
  lemma StripBlanked(ds: seq<Date>)
    requires forall i :: 0 <= i < |ds| ==> IsValid(ds[i])
    ensures StripAll(Blanked(FormatAll(ds))) == FormatAll(ds)
  {
    var fs := FormatAll(ds);
    var ts := Blanked(fs);
    var toks := StripAll(ts);
    forall i | 0 <= i < |fs| ensures toks[i] == fs[i] {
      FormattedPiece(ds[i]);
      if i > 0 { assert ts[i] == " " + fs[i]; }
    }
  }

  /** The stripped pieces of a canonical string are the formatted dates. */
  lemma FormattedTokens(ds: seq<Date>)
    requires |ds| >= 1
    requires forall i :: 0 <= i < |ds| ==> IsValid(ds[i])
    ensures Tokens(FormatDeadlines(ds)) == FormatAll(ds)
  {
    SplitCanonical(ds);
    StripBlanked(ds);
  }

  /** Formatting valid dates and parsing the result gives the same dates back. */
  lemma FormatParseDeadlines(ds: seq<Date>)
    requires |ds| >= 1
    requires forall i :: 0 <= i < |ds| ==> IsValid(ds[i])
    ensures ParseDeadlines(FormatDeadlines(ds)) == Some(ds)
  {
    var fs := FormatAll(ds);
    FormattedTokens(ds);
    forall i | 0 <= i < |fs| ensures ParseDate(fs[i]) == Some(ds[i]) {
      ParseFormat(ds[i]);
    }
    var r := ParseAll(fs);
    assert r.Some?;
    assert r.value == ds;
  }

  /**
   * Canonicalisation is idempotent: the canonical string parses to the same
   * dates and canonicalises to itself.
   */
  lemma CanonicalizeIdempotent(s: string)
    requires Canonicalize(s).Some?
    ensures ParseDeadlines(Canonicalize(s).value) == ParseDeadlines(s)
    ensures Canonicalize(Canonicalize(s).value) == Canonicalize(s)
  {
    FormatParseDeadlines(ParseDeadlines(s).value);
  }

  /** A field without commas is a single deadline. */
  lemma SingleDeadline(s: string)
    requires ',' !in s && NoEdgeSpace(s)
    ensures Canonicalize(s) == if ParseDate(s).Some? then Some(FormatDate(ParseDate(s).value)) else None
  {
    SplitNoSeparator(s, ',');
    assert Tokens(s)[0] == s;
    if ParseDate(s).Some? {
      var d := ParseDate(s).value;
      assert ParseDeadlines(s).value == [d];
      assert FormatAll([d]) == [FormatDate(d)];
    }
  }

  /** A trailing comma leaves an empty last token, which is not a date. */
  lemma TrailingCommaRejected(s: string)
    ensures Canonicalize(s + ",") == None
  {
    SplitTrailingSeparator(s, ',');
    var ts := Tokens(s + ",");
    assert ts[|ts| - 1] == Strip([]);
  }
}
