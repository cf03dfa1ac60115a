/**
 * Candidate assembly of the resolution assistant (`src/llm_client.py`):
 * turning search hits into candidates, reading the `resolved` flag and the
 * date of each, sorting by score, and attaching a status badge. The call to
 * the Gemini model is external: its reply is a parameter.
 */
module Assistant {
  import opened Wrappers
  import opened Seqs
  import opened Text
  import opened Calendar
  import opened Ranking
  import opened Documents

  const BadgeNotConfirmed: string := "Attempted (Not Confirmed) — solution may be incomplete."
  const BadgeUnknown: string := "Unknown resolution status."

  /** A similar ticket as `generate_recommendation` receives it; each key may be absent. */
  datatype Ticket = Ticket(id: Option<string>, score: Option<int>, metadata: Option<Meta>)

  /** The `_badge` key: absent until `generate_recommendation` sets it. */
  datatype BadgeSlot = Unset | Set(badge: Option<string>)

  /** One candidate dictionary. */
  datatype Candidate = Candidate(
    ticketId: string,
    problem: string,
    resolution: string,
    date: string,
    agentName: string,
    category: string,
    resolved: Option<bool>,
    score: int,
    parsedDate: Option<Date>,
    badge: BadgeSlot)

  // ----------------------------------------------------------------------
  // _parse_resolved

  function DotCount(s: string): (n: nat)
    ensures n <= |s|
  {
    if s == [] then 0 else (if s[0] == '.' then 1 else 0) + DotCount(s[1..])
  }

  /** Digits with at most one '.', and at least one digit ("1", "0.5", "3.", ".5"). */
  predicate NumberBody(b: string) {
    && (forall i :: 0 <= i < |b| ==> IsDigit(b[i]) || b[i] == '.')
    && DotCount(b) <= 1
    && exists i :: 0 <= i < |b| && IsDigit(b[i])
  }

  /** The decimal literals `float()` accepts: an optional sign, then a number body. */
  predicate DecimalLiteral(s: string) {
    if |s| > 0 && (s[0] == '+' || s[0] == '-') then NumberBody(s[1..]) else NumberBody(s)
  }

  /**
   * Some digit is nonzero: how `bool(float(s))` reads a decimal literal. For
   * digit strings this is the value being nonzero (`NonzeroDigitIffValue`);
   * a literal so small that `float()` rounds it to 0.0 is not told apart.
   */
  predicate HasNonzeroDigit(s: string) {
    exists i :: 0 <= i < |s| && '1' <= s[i] <= '9'
  }

  /** The non-finite spellings `float()` accepts, optionally signed: "nan", "inf", "infinity". */
  predicate NonFiniteLiteral(s: string) {
    var b := if |s| > 0 && (s[0] == '+' || s[0] == '-') then s[1..] else s;
    b == "nan" || b == "inf" || b == "infinity"
  }

  /** `_parse_resolved`: a tri-state reading of the `resolved` metadata field. */
  function ParseResolved(value: string): Option<bool> {
    if value == "" then None else ReadFlag(Lower(Strip(value)))
  }

  /**
   * The reading of a trimmed, lower-cased value: a flag word, else
   * `bool(float(s))`, where NaN and the infinities are true.
   */
  function ReadFlag(s: string): Option<bool> {
    if s == "true" then Some(true)
    else if s == "false" then Some(false)
    else if DecimalLiteral(s) then Some(HasNonzeroDigit(s))
    else if NonFiniteLiteral(s) then Some(true)
    else None
  }

  /** The value read does not depend on surrounding whitespace or letter case. */
  lemma ParseResolvedNormalizes(value: string)
    requires value != ""
    ensures Lower(Strip(value)) != "" ==> ParseResolved(value) == ParseResolved(Lower(Strip(value)))
  {
    var s := Lower(Strip(value));
    if s != "" {
      StripTrimmed(value);
      LowerTrimmed(Strip(value));
      StripOfTrimmed(s);
      LowerIdempotent(Strip(value));
    }
  }

  lemma LowerTrimmed(s: string)
    requires Trimmed(s)
    ensures Trimmed(Lower(s))
  {
  }

  lemma LowerIdempotent(s: string)
    ensures Lower(Lower(s)) == Lower(s)
  {
  }

  /** Python's `str(True)` and `str(False)` read back as the same flag. */
  lemma ParseResolvedBoolStrings()
    ensures ParseResolved("True") == Some(true)
    ensures ParseResolved("False") == Some(false)
  {
    StripOfTrimmed("True");
    StripOfTrimmed("False");
    assert Lower("True") == "true";
    assert Lower("False") == "false";
  }

  /** Any non-negative integer written out reads as "resolved" exactly when it is nonzero. */
  lemma ParseResolvedInteger(n: nat)
    ensures ParseResolved(DecimalString(n)) == Some(n != 0)
  {
    DecimalStringDigits(n);
    DigitsRead(DecimalString(n));
    DecimalStringValue(n);
    NonzeroDigitIffValue(DecimalString(n));
  }

  /** A digit string has a nonzero digit exactly when its value is nonzero. */
  lemma NonzeroDigitIffValue(s: string)
    requires AllDigits(s)
    ensures HasNonzeroDigit(s) <==> DigitsValue(s) != 0
  {
    DigitsValueZero(s);
    if DigitsValue(s) != 0 {
      var i :| 0 <= i < |s| && s[i] != '0';
      assert '1' <= s[i] <= '9';
    }
  }

  /** A non-empty run of digits is read as a number. */
  lemma DigitsRead(s: string)
    requires |s| > 0 && AllDigits(s)
    ensures ParseResolved(s) == Some(HasNonzeroDigit(s))
  {
    DigitsNormalized(s);
    DigitsFlag(s);
  }

  lemma DigitsNormalized(s: string)
    requires |s| > 0 && AllDigits(s)
    ensures Lower(Strip(s)) == s
  {
    DigitsTrimmed(s);
    DigitsLower(s);
  }

  lemma DigitsTrimmed(s: string)
    requires |s| > 0 && AllDigits(s)
    ensures Strip(s) == s
  {
    assert Trimmed(s);
    StripOfTrimmed(s);
  }

  lemma DigitsLower(s: string)
    requires AllDigits(s)
    ensures Lower(s) == s
  {
  }

  lemma DigitsFlag(s: string)
    requires |s| > 0 && AllDigits(s)
    ensures ReadFlag(s) == Some(HasNonzeroDigit(s))
  {
    assert IsDigit(s[0]);
    NoDots(s);
    assert NumberBody(s);
  }

  lemma {:induction false} NoDots(s: string)
    requires AllDigits(s)
    ensures DotCount(s) == 0
  {
    if s != [] {
      NoDots(s[1..]);
    }
  }

  /** A digit string is worth zero exactly when all its digits are '0'. */
  lemma {:induction false} DigitsValueZero(s: string)
    requires AllDigits(s)
    ensures DigitsValue(s) == 0 <==> forall i :: 0 <= i < |s| ==> s[i] == '0'
  {
    if s != [] {
      var init := s[..|s| - 1];
      DigitsValueZero(init);
      if DigitsValue(s) == 0 {
        forall i | 0 <= i < |s| ensures s[i] == '0' {
          if i < |s| - 1 {
            assert s[i] == init[i];
          }
        }
      }
    }
  }

  /** Blank input, whitespace and anything that is neither a flag word nor a number read as unknown. */
  lemma ParseResolvedUnknown()
    ensures ParseResolved("") == None
    ensures ParseResolved("maybe") == None
  {
    StripOfTrimmed("maybe");
    assert Lower("maybe") == "maybe";
    assert !IsDigit("maybe"[0]) && "maybe"[0] != '.';
  }

  /** "nan", "inf" and "infinity", signed or not, read as resolved: NaN and the infinities are truthy. */
  lemma ParseResolvedNonFinite(s: string)
    requires NonFiniteLiteral(s)
    ensures ParseResolved(s) == Some(true)
  {
    NonFiniteShape(s);
    StripOfTrimmed(s);
  }

  lemma NonFiniteShape(s: string)
    requires NonFiniteLiteral(s)
    ensures Trimmed(s) && Lower(s) == s && !DecimalLiteral(s)
  {
    var b := if s[0] == '+' || s[0] == '-' then s[1..] else s;
    assert Lower(s) == s by {
      assert forall i :: 0 <= i < |s| ==> !('A' <= s[i] <= 'Z');
    }
    assert !DecimalLiteral(s) by {
      assert !IsDigit(b[0]) && b[0] != '.';
    }
  }

  /** "TRUE" and "0" read as resolved and unresolved. */
  lemma ParseResolvedExamples()
    ensures ParseResolved("TRUE") == Some(true)
    ensures ParseResolved("0") == Some(false)
  {
    StripOfTrimmed("TRUE");
    assert Lower("TRUE") == "true";
    ParseResolvedInteger(0);
    assert DecimalString(0) == "0";
  }

  // ----------------------------------------------------------------------
  // _parse_date and _get_status_badge

  /** `_parse_date`: `strptime(s, "%m/%d/%Y")`, with `None` for empty input or any failure. */
  function ParseDate(s: string): Option<Date> {
    if s == "" then None else ParseUsDate(s)
  }

  /** Dates as `create_documents` stores them (`%Y-%m-%d`) never parse here. */
  lemma ParseDateRejectsIso(d: Date)
    ensures ParseDate(IsoFormat(d)) == None
  {
    IsoFormatNeverParsesAsUs(d);
  }

  /** A valid date written as `%m/%d/%Y` parses back to itself. */
  lemma ParseDateRoundTrip(d: Date)
    requires ValidDate(d)
    ensures ParseDate(UsFormat(d)) == Some(d)
  {
    UsFormatRoundTrip(d);
  }

  /** `_get_status_badge`. */
  function StatusBadge(resolved: Option<bool>): Option<string> {
    match resolved
    case Some(true) => None
    case Some(false) => Some(BadgeNotConfirmed)
    case None => Some(BadgeUnknown)
  }

  /** The badge tells the three states apart: only a confirmed resolution has none. */
  lemma StatusBadgeInjective(a: Option<bool>, b: Option<bool>)
    ensures StatusBadge(a) == StatusBadge(b) <==> a == b
    ensures StatusBadge(a) == None <==> a == Some(true)
  {
    assert |BadgeNotConfirmed| != |BadgeUnknown|;
  }

  // ----------------------------------------------------------------------
  // _prepare_candidates

  /** `d.get(key, default)` on a metadata object. */
  function Get(m: Meta, key: string, default: string): string {
    if key in m then m[key] else default
  }

  /** The candidate `_prepare_candidates` builds from one ticket. */
  function CandidateOf(t: Ticket): Candidate {
    var meta := t.metadata.GetOr(map[]);
    var date := Get(meta, "date", "");
    Candidate(
      Get(meta, "ticket_id", t.id.GetOr("")),
      Get(meta, "problem", ""),
      Get(meta, "resolution", ""),
      date,
      Get(meta, "agent_name", ""),
      Get(meta, "category", ""),
      ParseResolved(Get(meta, "resolved", "")),
      t.score.GetOr(0),
      ParseDate(date),
      Unset)
  }

  function CandidateScore(c: Candidate): int {
    c.score
  }

  /**
   * The candidate's ID is the metadata's `ticket_id` when that key is present
   * and the ticket's own `id` only when it is absent; its score defaults to 0,
   * a missing `resolved` reads as unknown, and no badge is set yet.
   */
  lemma CandidateOfDefaults(t: Ticket)
    ensures var c := CandidateOf(t);
      && (t.metadata.Some? && "ticket_id" in t.metadata.value ==> c.ticketId == t.metadata.value["ticket_id"])
      && (t.metadata.None? || "ticket_id" !in t.metadata.value ==> c.ticketId == t.id.GetOr(""))
      && (t.score.None? ==> c.score == 0)
      && (t.metadata.None? || "resolved" !in t.metadata.value ==> c.resolved == None)
      && (t.metadata.None? || "date" !in t.metadata.value ==> c.date == "" && c.parsedDate == None)
      && c.badge == Unset
  {
  }

  /** A present `resolved` value is read by `_parse_resolved`, whatever else the metadata holds. */
  lemma CandidateResolved(t: Ticket, value: string)
    requires t.metadata.Some? && "resolved" in t.metadata.value && t.metadata.value["resolved"] == value
    ensures CandidateOf(t).resolved == ParseResolved(value)
  {
  }

  /** `_prepare_candidates`: one candidate per ticket, stably sorted by descending score. */
  method PrepareCandidates(tickets: seq<Ticket>) returns (candidates: seq<Candidate>)
    ensures candidates == SortDesc(Map(CandidateOf, tickets), CandidateScore)
  {
    candidates := [];
    for k := 0 to |tickets|
      invariant candidates == Map(CandidateOf, tickets[..k])
    {
      MapAppend(CandidateOf, tickets[..k], [tickets[k]]);
      assert tickets[..k] + [tickets[k]] == tickets[..k + 1];
      candidates := candidates + [CandidateOf(tickets[k])];
    }
    assert tickets[..|tickets|] == tickets;
    candidates := SortDesc(candidates, CandidateScore);
  }

  /**
   * The candidates are the tickets' candidates, each exactly once, in
   * non-increasing score order, with tied scores in input order.
   */
  lemma PreparedCandidatesOrdered(tickets: seq<Ticket>, v: int)
    ensures var cs := SortDesc(Map(CandidateOf, tickets), CandidateScore);
      && |cs| == |tickets|
      && multiset(cs) == multiset(Map(CandidateOf, tickets))
      && NonIncreasing(cs, CandidateScore)
      && WithKey(cs, CandidateScore, v) == WithKey(Map(CandidateOf, tickets), CandidateScore, v)
  {
    SortDescOrdered(Map(CandidateOf, tickets), CandidateScore);
    SortDescStable(Map(CandidateOf, tickets), CandidateScore, v);
  }

  // ----------------------------------------------------------------------
  // GeminiClient and generate_recommendation

  datatype ClientError = MissingApiKey

  /** A configured `GeminiClient`. */
  datatype GeminiClient = GeminiClient(apiKey: string, modelName: Option<string>)

  /** `GeminiClient(api_key, model_name)`: `api_key or GEMINI_API_KEY`, refused when empty. */
  function NewGeminiClient(apiKey: Option<string>, envKey: Option<string>, modelName: Option<string>): (r: Result<GeminiClient, ClientError>)
    ensures r.Success? <==> (apiKey.Some? && apiKey.value != "") || (envKey.Some? && envKey.value != "")
    ensures r.Success? ==> r.value.apiKey != "" && r.value.modelName == modelName
    ensures r.Success? && apiKey.Some? && apiKey.value != "" ==> r.value.apiKey == apiKey.value
  {
    var key := if apiKey.Some? && apiKey.value != "" then apiKey else envKey;
    if key.None? || key.value == "" then Failure(MissingApiKey)
    else Success(GeminiClient(key.value, modelName))
  }

  /** `f"gemini:{model_name}"`, where an unset name prints as `None`. */
  function Backend(c: GeminiClient): string {
    "gemini:" + match c.modelName
      case Some(n) => n
      case None => "None"
  }

  /** The dictionary `generate_recommendation` returns. */
  datatype Recommendation = Recommendation(llmOutput: string, candidates: seq<Candidate>, backend: string)

  function WithBadge(c: Candidate): Candidate {
    c.(badge := Set(StatusBadge(c.resolved)))
  }

  /**
   * `generate_recommendation`: prepare the candidates, take the model's reply
   * (an input here), then set each candidate's badge from its `resolved` state.
   */
  method GenerateRecommendation(client: GeminiClient, query: string, tickets: seq<Ticket>, reply: string)
    returns (rec: Recommendation)
    ensures rec.llmOutput == reply && rec.backend == Backend(client)
    ensures |rec.candidates| == |tickets|
    ensures rec.candidates == Map(WithBadge, SortDesc(Map(CandidateOf, tickets), CandidateScore))
  {
    var candidates := PrepareCandidates(tickets);
    SortDescOrdered(Map(CandidateOf, tickets), CandidateScore);
    ghost var prepared := candidates;
    for k := 0 to |candidates|
      invariant |candidates| == |prepared|
      invariant forall j :: 0 <= j < k ==> candidates[j] == WithBadge(prepared[j])
      invariant forall j :: k <= j < |candidates| ==> candidates[j] == prepared[j]
    {
      var c := candidates[k];
      candidates := candidates[k := c.(badge := Set(StatusBadge(c.resolved)))];
    }
    rec := Recommendation(reply, candidates, Backend(client));
  }

  /**
   * Badging changes nothing but the badge: every returned candidate carries
   * `_get_status_badge` of its own `resolved` state, and its other fields are
   * those `_prepare_candidates` produced.
   */
  lemma BadgesMatchStatus(cs: seq<Candidate>, k: nat)
    requires k < |cs|
    ensures var b := Map(WithBadge, cs)[k];
      && b.badge == Set(StatusBadge(cs[k].resolved))
      && b.(badge := cs[k].badge) == cs[k]
  {
  }
}
