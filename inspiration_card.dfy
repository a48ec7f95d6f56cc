/** The text the result card derives from an echo
    (components/InspirationCard.tsx): the shared post, the export file name,
    the headline over the image and which platform cards are shown. */
module InspirationCard {
  import opened Types
  import opened Text

  const POST_LEAD := "\U{2728} DIVINE ECHO | "
  const DAY_LEAD := "\n\U{1F4C5} Day "
  const FILE_LEAD := "DivineEcho-Day"
  const FILE_EXT := ".png"
  const OPEN_QUOTE := '\U{201C}'
  const CLOSE_QUOTE := '\U{201D}'

  /** The two header lines and the blank line in front of every shared post. */
  function PostHeader(data: InspirationData): string {
    POST_LEAD + data.dateString + DAY_LEAD + IntToString(data.dayNumber) +
      " of " + IntToString(data.totalDays) + "\n\n"
  }

  /** `generateFullPost`: header, the post body verbatim, a blank line,
      the hashtags verbatim at the very end. */
  function FullPost(data: InspirationData, content: string, hashtags: string): (post: string)
    ensures |post| == |PostHeader(data)| + |content| + 2 + |hashtags|
    ensures post[..|PostHeader(data)|] == PostHeader(data)
    ensures post[|PostHeader(data)|..|PostHeader(data)| + |content|] == content
    ensures post[|PostHeader(data)| + |content|..|post| - |hashtags|] == "\n\n"
    ensures post[|post| - |hashtags|..] == hashtags
  {
    var header := PostHeader(data);
    var post := header + content + "\n\n" + hashtags;
    assert post[..|header|] == header;
    assert post[|header|..|header| + |content|] == content;
    assert post[|header| + |content|..|post| - |hashtags|] == "\n\n";
    post
  }

  /** For one echo and one set of hashtags, the post determines the body. */
  lemma FullPostDeterminesContent(data: InspirationData, c1: string, c2: string, hashtags: string)
    requires FullPost(data, c1, hashtags) == FullPost(data, c2, hashtags)
    ensures c1 == c2
  {
    var h := |PostHeader(data)|;
    assert c1 == FullPost(data, c1, hashtags)[h..h + |c1|];
  }

  /** The header starts with the fixed lead, and the date and both numbers
      can be read back out of it. */
  lemma PostHeaderReadsBack(data: InspirationData)
    ensures var header := PostHeader(data);
      var day := IntToString(data.dayNumber);
      var afterDate := |POST_LEAD| + |data.dateString|;
      var dayAt := afterDate + |DAY_LEAD|;
      header[..|POST_LEAD|] == POST_LEAD &&
      header[|POST_LEAD|..afterDate] == data.dateString &&
      JsNumber(header[dayAt..dayAt + |day|]) == Some(data.dayNumber) &&
      JsNumber(header[dayAt + |day| + 4..|header| - 2]) == Some(data.totalDays)
  {
    var header := PostHeader(data);
    var day := IntToString(data.dayNumber);
    var total := IntToString(data.totalDays);
    var afterDate := |POST_LEAD| + |data.dateString|;
    var dayAt := afterDate + |DAY_LEAD|;
    assert header == POST_LEAD + data.dateString + DAY_LEAD + day + " of " + total + "\n\n";
    assert header[dayAt..dayAt + |day|] == day;
    assert header[dayAt + |day| + 4..|header| - 2] == total;
    IntToStringRoundTrip(data.dayNumber);
    IntToStringRoundTrip(data.totalDays);
  }

  /** The `link.download` name of the exported image. */
  function ExportFilename(data: InspirationData): (name: string)
    ensures |name| > |FILE_LEAD| + |FILE_EXT|
    ensures name[..|FILE_LEAD|] == FILE_LEAD
    ensures name[|name| - |FILE_EXT|..] == FILE_EXT
    ensures JsNumber(name[|FILE_LEAD|..|name| - |FILE_EXT|]) == Some(data.dayNumber)
  {
    var day := IntToString(data.dayNumber);
    var name := FILE_LEAD + day + FILE_EXT;
    assert name[|FILE_LEAD|..|name| - |FILE_EXT|] == day;
    IntToStringRoundTrip(data.dayNumber);
    name
  }

  /** The large headline: the overlay text when it is truthy, otherwise
      the event title, in curly quotes. */
  function Headline(data: InspirationData): (h: string)
    ensures |h| >= 2 && h[0] == OPEN_QUOTE && h[|h| - 1] == CLOSE_QUOTE
    ensures data.imageOverlayText.Some? && data.imageOverlayText.value != "" ==>
      h[1..|h| - 1] == data.imageOverlayText.value
    ensures data.imageOverlayText.None? || data.imageOverlayText.value == "" ==>
      h[1..|h| - 1] == data.eventTitle
  {
    var text := if data.imageOverlayText.Some? && data.imageOverlayText.value != ""
      then data.imageOverlayText.value else data.eventTitle;
    var h := [OPEN_QUOTE] + text + [CLOSE_QUOTE];
    assert h[1..|h| - 1] == text;
    h
  }

  /** A platform card as the card list declares it. */
  datatype Platform = Platform(name: string, postKey: string, hashtagsKey: string, limit: nat)

  const PLATFORMS: seq<Platform> := [
    Platform("LinkedIn", "linkedInPost", "linkedInHashtags", 3000),
    Platform("Facebook", "facebookPost", "facebookHashtags", 3000),
    Platform("WeChat", "wechatPost", "wechatHashtags", 5000),
    Platform("Instagram", "instagramPost", "instagramHashtags", 500),
    Platform("Threads", "threadsPost", "threadsHashtags", 500),
    Platform("WhatsApp", "whatsappPost", "whatsappHashtags", 500),
    Platform("X (Twitter)", "twitterPost", "twitterHashtags", 280)
  ]

  /** The post fields the content prompt asks the model for. */
  const PROMPTED_POST_KEYS: set<string> := {
    "linkedInPost", "linkedInHashtags", "instaThreadsPost",
    "instaHashtags", "twitterWhatsAppPost", "twitterHashtags"
  }

  function Lookup(posts: map<string, string>, key: string): Option<string> {
    if key in posts then Some(posts[key]) else None
  }

  /** A `${...}` interpolation: an absent field prints as "undefined". */
  function Interpolated(v: Option<string>): string {
    if v.Some? then v.value else "undefined"
  }

  /** What a shown platform card holds: its body, its hashtags and the text
      its copy button puts on the clipboard. */
  datatype PlatformView = PlatformView(name: string, content: string, hashtags: Option<string>, limit: nat, copyText: string)

  /** `PlatformCard`: nothing when the body is missing or empty. */
  function PlatformCard(data: InspirationData, p: Platform): (v: Option<PlatformView>)
    ensures v.None? <==> p.postKey !in data.posts || data.posts[p.postKey] == ""
    ensures v.Some? ==> (v.value.name == p.name && v.value.content == data.posts[p.postKey] &&
      v.value.hashtags == Lookup(data.posts, p.hashtagsKey) &&
      v.value.copyText == FullPost(data, v.value.content, Interpolated(v.value.hashtags)))
  {
    match Lookup(data.posts, p.postKey)
    case None => None
    case Some(content) =>
      if content == "" then None
      else
        var hashtags := Lookup(data.posts, p.hashtagsKey);
        Some(PlatformView(p.name, content, hashtags, p.limit, FullPost(data, content, Interpolated(hashtags))))
  }

  /** The cards shown for `platforms`, in order. */
  function ShownCards(data: InspirationData, platforms: seq<Platform>): (cards: seq<PlatformView>)
    ensures |cards| <= |platforms|
  {
    if |platforms| == 0 then []
    else
      var rest := ShownCards(data, platforms[1..]);
      match PlatformCard(data, platforms[0])
      case None => rest
      case Some(v) => [v] + rest
  }

  /** A card is shown exactly for the platforms whose body is non-empty. */
  lemma {:induction false} ShownCardsExactly(data: InspirationData, platforms: seq<Platform>, name: string)
    ensures (exists v :: v in ShownCards(data, platforms) && v.name == name) <==>
      (exists p :: p in platforms && p.name == name && p.postKey in data.posts && data.posts[p.postKey] != "")
  {
    if |platforms| > 0 {
      var p := platforms[0];
      var rest := ShownCards(data, platforms[1..]);
      ShownCardsExactly(data, platforms[1..], name);
      assert forall q :: q in platforms <==> q == p || q in platforms[1..];
      match PlatformCard(data, p)
      case None =>
        assert ShownCards(data, platforms) == rest;
      case Some(v) =>
        assert ShownCards(data, platforms) == [v] + rest;
        assert forall w :: w in [v] + rest <==> w == v || w in rest;
    }
  }

  /** A response that holds exactly the post fields the prompt asks for
      shows only the LinkedIn card: the other cards read field names the
      prompt never requests. */
  lemma PromptedFieldsShowOnlyLinkedIn(data: InspirationData)
    requires data.posts.Keys == PROMPTED_POST_KEYS
    requires data.posts["linkedInPost"] != ""
    ensures |ShownCards(data, PLATFORMS)| == 1
    ensures ShownCards(data, PLATFORMS)[0].name == "LinkedIn"
    ensures ShownCards(data, PLATFORMS)[0].hashtags == Some(data.posts["linkedInHashtags"])
  {
    var ps := PLATFORMS;
    assert "facebookPost" !in PROMPTED_POST_KEYS;
    assert "wechatPost" !in PROMPTED_POST_KEYS;
    assert "instagramPost" !in PROMPTED_POST_KEYS;
    assert "threadsPost" !in PROMPTED_POST_KEYS;
    assert "whatsappPost" !in PROMPTED_POST_KEYS;
    assert "twitterPost" !in PROMPTED_POST_KEYS;
    assert ShownCards(data, ps[7..]) == [];
    assert ps[6..][1..] == ps[7..];
    assert ShownCards(data, ps[6..]) == [];
    assert ps[5..][1..] == ps[6..];
    assert ShownCards(data, ps[5..]) == [];
    assert ps[4..][1..] == ps[5..];
    assert ShownCards(data, ps[4..]) == [];
    assert ps[3..][1..] == ps[4..];
    assert ShownCards(data, ps[3..]) == [];
    assert ps[2..][1..] == ps[3..];
    assert ShownCards(data, ps[2..]) == [];
    assert ps[1..][1..] == ps[2..];
    assert ShownCards(data, ps[1..]) == [];
  }
}
