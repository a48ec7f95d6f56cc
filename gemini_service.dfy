/** The deterministic shaping around the three Gemini calls
    (services/geminiService.ts). Each remote call is represented by its
    outcome: `Fail` when `generateContent` throws, otherwise the part of the
    response the code reads. `JSON.parse` is a decoder handed in by the
    caller that answers `None` where the real one throws. */
module GeminiService {
  import opened Types
  import opened Text

  const EXCLUSION_LEAD := "\nDO NOT include these events: "
  const ARCHIVES_FAILED := "Failed to fetch historical archives."
  const NARRATIVE_FAILED := "Failed to weave the narrative threads."
  const VISUAL_FAILED := "Visual manifestation failed."
  const AUDIO_FAILED := "Audio synthesis failed."
  const PNG_DATA_URI := "data:image/png;base64,"
  const YEAR_SUFFIX := ", 2026"

  /** The prompt clause that asks the provider to skip titles already seen. */
  function ExclusionClause(excludeTitles: seq<string>): (clause: string)
    ensures clause == "" <==> |excludeTitles| == 0
    ensures |excludeTitles| > 0 ==> |clause| > |EXCLUSION_LEAD| && clause[|clause| - 1] == '.'
  {
    if |excludeTitles| > 0 then EXCLUSION_LEAD + Join(excludeTitles, ", ") + "." else ""
  }

  /** The clause is empty exactly when there is nothing to exclude; adding
      a title appends ", " and that title before the closing period. */
  lemma ExclusionClauseShape(titles: seq<string>, t: string)
    ensures ExclusionClause(titles) == "" <==> titles == []
    ensures ExclusionClause([t]) == EXCLUSION_LEAD + t + "."
    ensures titles != [] ==>
      ExclusionClause(titles + [t]) == EXCLUSION_LEAD + Join(titles, ", ") + ", " + t + "."
  {
    assert Join([t], ", ") == t;
    if titles != [] {
      ExclusionClauseSnoc(titles, t);
    }
  }

  lemma ExclusionClauseSnoc(titles: seq<string>, t: string)
    requires titles != []
    ensures ExclusionClause(titles + [t]) == EXCLUSION_LEAD + Join(titles, ", ") + ", " + t + "."
  {
    var joined := Join(titles, ", ");
    JoinSnoc(titles, t, ", ");
    assert ExclusionClause(titles + [t]) == EXCLUSION_LEAD + (joined + ", " + t) + ".";
    Regroup(EXCLUSION_LEAD, joined, ", ", t, ".");
  }

  lemma Regroup(a: string, b: string, c: string, d: string, e: string)
    ensures a + (b + c + d) + e == a + b + c + d + e
  {
  }

  /** `response.text || fallback`: a missing or empty text becomes the fallback. */
  function TextOr(text: Option<string>, fallback: string): string {
    if text.Some? && text.value != "" then text.value else fallback
  }

  /** `fetchHistoricalRecommendations` after the call: parse the text, or
      `"[]"` when there is none, and turn a parse failure into its message. */
  function RecommendationsFrom(
    response: Outcome<Option<string>>,
    parse: string -> Option<seq<HistoricalRecommendation>>): (r: Outcome<seq<HistoricalRecommendation>>)
    ensures response.Fail? ==> r == Fail(response.message)
    ensures response.Ok? && parse(TextOr(response.value, "[]")).None? ==> r == Fail(Some(ARCHIVES_FAILED))
    ensures r.Ok? <==> response.Ok? && parse(TextOr(response.value, "[]")).Some?
    ensures r.Ok? ==> r.value == parse(TextOr(response.value, "[]")).value
  {
    match response
    case Fail(m) => Fail(m)
    case Ok(text) =>
      match parse(TextOr(text, "[]"))
      case None => Fail(Some(ARCHIVES_FAILED))
      case Some(recs) => Ok(recs)
  }

  /** With a decoder that reads `"[]"` as the empty list, as `JSON.parse`
      does, a response without text yields no recommendations. */
  lemma EmptyTextGivesNoRecommendations(
    text: Option<string>,
    parse: string -> Option<seq<HistoricalRecommendation>>)
    requires parse("[]") == Some([])
    requires text.None? || text.value == ""
    ensures RecommendationsFrom(Ok(text), parse) == Ok([])
  {
  }

  /** What `fetchDailyInspiration` receives from the caller. */
  datatype ContentRequest = ContentRequest(
    current: int,
    total: int,
    formatted: string,
    dateString: string,
    userName: string,
    selectedEvent: HistoricalRecommendation)

  /** `{ ...rawData, dayCount, dayNumber, totalDays, dateString, userName }`:
      the five day fields come from the request, whatever the response said. */
  function MergeDayFields(raw: InspirationData, req: ContentRequest): (info: InspirationData)
    ensures info.dayCount == req.formatted && info.dayNumber == req.current
    ensures info.totalDays == req.total && info.userName == req.userName
    ensures info.dateString == req.dateString + YEAR_SUFFIX
    ensures info.eventTitle == raw.eventTitle && info.eventDescription == raw.eventDescription
    ensures info.imageOverlayText == raw.imageOverlayText && info.eventLocation == raw.eventLocation
    ensures info.bibleVerse == raw.bibleVerse && info.bibleReference == raw.bibleReference
    ensures info.reflectionPrompt == raw.reflectionPrompt && info.posts == raw.posts
    ensures info.imagePrompt == raw.imagePrompt && info.imageUrl == raw.imageUrl
    ensures info.customBg == raw.customBg
  {
    raw.(dayCount := req.formatted, dayNumber := req.current, totalDays := req.total,
         dateString := req.dateString + YEAR_SUFFIX, userName := req.userName)
  }

  /** Two responses that differ only in the overridden fields merge to the
      same result, and merging again changes nothing. */
  lemma MergeOverrides(raw1: InspirationData, raw2: InspirationData, req: ContentRequest)
    requires raw1.(dayCount := raw2.dayCount, dayNumber := raw2.dayNumber,
                   totalDays := raw2.totalDays, dateString := raw2.dateString,
                   userName := raw2.userName) == raw2
    ensures MergeDayFields(raw1, req) == MergeDayFields(raw2, req)
    ensures MergeDayFields(MergeDayFields(raw1, req), req) == MergeDayFields(raw1, req)
  {
  }

  /** `fetchDailyInspiration` after the call: parse the text, or `"{}"`
      when there is none, and merge in the day fields. */
  function ContentFrom(
    response: Outcome<Option<string>>,
    parse: string -> Option<InspirationData>,
    req: ContentRequest): (r: Outcome<InspirationData>)
    ensures response.Fail? ==> r == Fail(response.message)
    ensures response.Ok? && parse(TextOr(response.value, "{}")).None? ==> r == Fail(Some(NARRATIVE_FAILED))
    ensures r.Ok? <==> response.Ok? && parse(TextOr(response.value, "{}")).Some?
    ensures r.Ok? ==> r.value == MergeDayFields(parse(TextOr(response.value, "{}")).value, req)
  {
    match response
    case Fail(m) => Fail(m)
    case Ok(text) =>
      match parse(TextOr(text, "{}"))
      case None => Fail(Some(NARRATIVE_FAILED))
      case Some(raw) => Ok(MergeDayFields(raw, req))
  }

  /** One part of a generated candidate; `inlineData` and its `data` may each be absent. */
  datatype InlineData = InlineData(data: Option<string>)
  datatype Part = Part(text: Option<string>, inlineData: Option<InlineData>)

  /** `part.inlineData?.data` is present and non-empty (truthy). */
  predicate HasInlineData(p: Part) {
    p.inlineData.Some? && p.inlineData.value.data.Some? && p.inlineData.value.data.value != ""
  }

  /** The data of the first part that carries inline data. */
  function FirstInlineData(parts: seq<Part>): (found: Option<string>)
    ensures found.Some? ==> found.value != ""
    ensures found.None? <==> forall j :: 0 <= j < |parts| ==> !HasInlineData(parts[j])
  {
    if |parts| == 0 then None
    else if HasInlineData(parts[0]) then Some(parts[0].inlineData.value.data.value)
    else
      assert forall j :: 1 <= j < |parts| ==> parts[j] == parts[1..][j - 1];
      FirstInlineData(parts[1..])
  }

  /** The scan finds data exactly when some part has it, and then it is the
      data of the first such part. */
  lemma {:induction false} FirstInlineDataIsFirst(parts: seq<Part>)
    ensures FirstInlineData(parts).None? <==> forall j :: 0 <= j < |parts| ==> !HasInlineData(parts[j])
    ensures FirstInlineData(parts).Some? ==>
      exists k :: 0 <= k < |parts| && HasInlineData(parts[k]) &&
        FirstInlineData(parts) == Some(parts[k].inlineData.value.data.value) &&
        forall j :: 0 <= j < k ==> !HasInlineData(parts[j])
  {
    if |parts| > 0 && !HasInlineData(parts[0]) {
      FirstInlineDataIsFirst(parts[1..]);
      assert forall j :: 1 <= j < |parts| ==> parts[j] == parts[1..][j - 1];
      if FirstInlineData(parts).Some? {
        var k :| 0 <= k < |parts[1..]| && HasInlineData(parts[1..][k]) &&
          FirstInlineData(parts[1..]) == Some(parts[1..][k].inlineData.value.data.value) &&
          forall j :: 0 <= j < k ==> !HasInlineData(parts[1..][j]);
        assert HasInlineData(parts[k + 1]);
      }
    }
  }

  /** Parts after the first one with inline data are ignored. */
  lemma {:induction false} LaterPartsIgnored(parts: seq<Part>, later: seq<Part>)
    requires FirstInlineData(parts).Some?
    ensures FirstInlineData(parts + later) == FirstInlineData(parts)
  {
    if !HasInlineData(parts[0]) {
      assert (parts + later)[1..] == parts[1..] + later;
      LaterPartsIgnored(parts[1..], later);
    }
  }

  /** What `generateInspirationalImage` returns or throws, given what the
      call returned: `parts` is `candidates?.[0]?.content?.parts`. */
  function ImageFrom(response: Outcome<Option<seq<Part>>>): (r: Outcome<string>)
    ensures response.Fail? ==> r == Fail(response.message)
    ensures response.Ok? && r.Fail? ==> r == Fail(Some(VISUAL_FAILED))
    ensures r.Ok? <==> (response.Ok? && response.value.Some? &&
      exists k :: 0 <= k < |response.value.value| && HasInlineData(response.value.value[k]))
    ensures r.Ok? ==> exists k :: (0 <= k < |response.value.value| &&
      HasInlineData(response.value.value[k]) &&
      r.value == PNG_DATA_URI + response.value.value[k].inlineData.value.data.value &&
      forall j :: 0 <= j < k ==> !HasInlineData(response.value.value[j]))
  {
    match response
    case Fail(m) => Fail(m)
    case Ok(None) => Fail(Some(VISUAL_FAILED))
    case Ok(Some(parts)) =>
      FirstInlineDataIsFirst(parts);
      match FirstInlineData(parts)
      case None => Fail(Some(VISUAL_FAILED))
      case Some(d) => Ok(PNG_DATA_URI + d)
  }

  /** The `for ... of parts` scan with its early return. */
  method GenerateInspirationalImage(response: Outcome<Option<seq<Part>>>) returns (r: Outcome<string>)
    ensures r == ImageFrom(response)
    ensures response.Ok? && r.Fail? ==> r == Fail(Some(VISUAL_FAILED))
    ensures response.Ok? && response.value.Some? ==>
      (r.Ok? <==> exists k :: 0 <= k < |response.value.value| && HasInlineData(response.value.value[k]))
    ensures r.Ok? ==> exists k :: (0 <= k < |response.value.value| &&
      HasInlineData(response.value.value[k]) &&
      r.value == PNG_DATA_URI + response.value.value[k].inlineData.value.data.value &&
      forall j :: 0 <= j < k ==> !HasInlineData(response.value.value[j]))
  {
    if response.Fail? {
      return Fail(response.message);
    }
    if response.value.None? {
      return Fail(Some(VISUAL_FAILED));
    }
    var parts := response.value.value;
    for i := 0 to |parts|
      invariant FirstInlineData(parts) == FirstInlineData(parts[i..])
    {
      var part := parts[i];
      if part.inlineData.Some? && part.inlineData.value.data.Some? && part.inlineData.value.data.value != "" {
        return Ok(PNG_DATA_URI + part.inlineData.value.data.value);
      }
      assert parts[i..][1..] == parts[i + 1..];
    }
    return Fail(Some(VISUAL_FAILED));
  }

  /** `generateTTS` after the call: only the first part is looked at. */
  function SpeechFrom(response: Outcome<Option<seq<Part>>>): (r: Outcome<string>)
    ensures response.Fail? ==> r == Fail(response.message)
    ensures r.Ok? <==> (response.Ok? && response.value.Some? && |response.value.value| > 0 &&
      HasInlineData(response.value.value[0]))
    ensures r.Ok? ==> r.value == response.value.value[0].inlineData.value.data.value
    ensures response.Ok? && !r.Ok? ==> r == Fail(Some(AUDIO_FAILED))
  {
    match response
    case Fail(m) => Fail(m)
    case Ok(parts) =>
      if parts.Some? && |parts.value| > 0 && HasInlineData(parts.value[0])
      then Ok(parts.value[0].inlineData.value.data.value)
      else Fail(Some(AUDIO_FAILED))
  }

  /** Audio is taken from the first part only: whenever it succeeds the image
      scan finds the same data, but a later part with data does not rescue it. */
  lemma SpeechOnlyReadsFirstPart(first: Part, later: Part)
    ensures SpeechFrom(Ok(Some([first]))).Ok? ==>
      ImageFrom(Ok(Some([first]))) == Ok(PNG_DATA_URI + SpeechFrom(Ok(Some([first]))).value)
    ensures !HasInlineData(first) && HasInlineData(later) ==>
      SpeechFrom(Ok(Some([first, later]))) == Fail(Some(AUDIO_FAILED)) &&
      ImageFrom(Ok(Some([first, later]))).Ok?
  {
    if !HasInlineData(first) && HasInlineData(later) {
      assert [first, later][1..] == [later];
      assert FirstInlineData([later]) == Some(later.inlineData.value.data.value);
    }
  }
}
