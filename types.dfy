/** Shared records of the Divine Echo app (types.ts) and the two wrappers
    the rest of the model uses for absent values and for calls that can throw. */
module Types {

  /** A value that may be `undefined`/`null` in the source. */
  datatype Option<+T> = None | Some(value: T)

  /** The outcome of a call that may throw: `Fail` carries the thrown
      error's `message`, which may itself be missing. */
  datatype Outcome<+T> = Ok(value: T) | Fail(message: Option<string>)

  /** One candidate event returned by the recommendation provider (types.ts:2-9). */
  datatype HistoricalRecommendation = HistoricalRecommendation(
    id: string,
    title: string,
    description: string,
    year: string,
    category: Option<string>,
    era: Option<string>)

  /** The generated echo (types.ts:14-42). The platform post bodies and
      hashtags are kept by their JSON field name in `posts`, because the
      declared names, the names the content prompt asks for and the names
      the card reads all differ. */
  datatype InspirationData = InspirationData(
    dayCount: string,
    dayNumber: int,
    totalDays: int,
    dateString: string,
    eventTitle: string,
    eventDescription: string,
    imageOverlayText: Option<string>,
    eventLocation: Option<string>,
    bibleVerse: string,
    bibleReference: string,
    reflectionPrompt: string,
    posts: map<string, string>,
    imagePrompt: string,
    imageUrl: Option<string>,
    customBg: Option<string>,
    userName: string)

  /** The phases of the generation pipeline (types.ts:44-53). */
  datatype LoadingState =
    | IDLE
    | SETUP
    | SCANNING
    | CHOOSING_EVENT
    | FETCHING_EVENT
    | GENERATING_IMAGE
    | COMPLETED
    | ERROR
}
